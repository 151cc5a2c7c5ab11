/** The permission broker (internal/server/permission.go, events_permission.go): prompts, their
    timeouts and cancellations, and any number of Resolve calls race for the claim on a prompt. The
    steps are the critical sections, the events and the channel operations. */
module Broker {
  import opened Options
  import Rule = SessionRule

  /** Who took the prompt out of the pending map. */
  datatype Claim = Open | ByExpiry(verdict: string) | ByResolver(r: nat)

  datatype PromptPc =
    | Registered                              // in the map, request not yet emitted
    | Waiting                                 // in the select
    | Expiring(verdict: string)                 // timed out or cancelled, about to take the lock
    | Announcing(verdict: string)               // won the claim, about to emit
    | Lost(verdict: string)                     // lost the claim, waits for the decision
    | Returning(allow: bool, reason: string)
    | Done(allow: bool, reason: string)

  datatype Prompt = Prompt(tool: string, target: string, pc: PromptPc, claim: Claim, channel: Option<string>)

  datatype ResolverPc = Claiming | Recording | Emitting | Sending | Accepted | Refused

  datatype Resolver = Resolver(id: nat, decision: string, pc: ResolverPc)

  datatype Event = Request(id: nat) | Resolved(id: nat, verdict: string)

  /** A rule that AllowSession has recorded, with the prompt that it was recorded for. */
  datatype Approval = Approval(id: nat, tool: string, target: string)

  /** Prompts and Resolve calls are numbered as they begin; `pending` is the broker's map. */
  datatype State = State(
    prompts: seq<Prompt>,
    resolvers: seq<Resolver>,
    pending: map<nat, (string, string)>,
    events: seq<Event>,
    approvals: seq<Approval>)

  datatype Step =
    | Ask(tool: string, target: string) | EmitRequest(id: nat) | Timeout(id: nat) | Cancel(id: nat)
    | Receive(id: nat) | Expire(id: nat) | Announce(id: nat) | Finish(id: nat)
    | Resolve(id: nat, decision: string) | TakeClaim(r: nat) | Record(r: nat) | EmitResolved(r: nat) | Send(r: nat)

  const ALWAYS := "always_allow"

  predicate Allows(decision: string) {
    decision == "allow" || decision == ALWAYS
  }

  function Reason(decision: string): string {
    if Allows(decision) then "approved" else "denied"
  }

  function ExpiryReason(verdict: string): string {
    if verdict == "timeout" then "timeout" else "cancelled"
  }

  function Init(): State {
    State([], [], map[], [], [])
  }

  predicate HasPrompt(s: State, id: nat) {
    id < |s.prompts|
  }

  predicate Enabled(s: State, step: Step) {
    match step
    case Ask(_, _) => true
    case EmitRequest(id) => HasPrompt(s, id) && s.prompts[id].pc.Registered?
    case Timeout(id) => HasPrompt(s, id) && s.prompts[id].pc.Waiting?
    case Cancel(id) => HasPrompt(s, id) && s.prompts[id].pc.Waiting?
    case Receive(id) =>
      HasPrompt(s, id) && (s.prompts[id].pc.Waiting? || s.prompts[id].pc.Lost?) && s.prompts[id].channel.Some?
    case Expire(id) => HasPrompt(s, id) && s.prompts[id].pc.Expiring?
    case Announce(id) => HasPrompt(s, id) && s.prompts[id].pc.Announcing?
    case Finish(id) => HasPrompt(s, id) && s.prompts[id].pc.Returning?
    case Resolve(_, _) => true
    case TakeClaim(r) => r < |s.resolvers| && s.resolvers[r].pc.Claiming?
    case Record(r) => r < |s.resolvers| && s.resolvers[r].pc.Recording?
    case EmitResolved(r) => r < |s.resolvers| && s.resolvers[r].pc.Emitting?
    case Send(r) => r < |s.resolvers| && s.resolvers[r].pc.Sending? && HasPrompt(s, s.resolvers[r].id)
  }

  function SetPrompt(s: State, id: nat, p: Prompt): State
    requires HasPrompt(s, id)
  {
    s.(prompts := s.prompts[id := p])
  }

  function SetResolver(s: State, r: nat, pc: ResolverPc): State
    requires r < |s.resolvers|
  {
    s.(resolvers := s.resolvers[r := s.resolvers[r].(pc := pc)])
  }

  /** A decision arrives on the prompt's channel. */
  function Deliver(p: Prompt): Prompt
    requires p.channel.Some?
  {
    p.(channel := None, pc := Returning(Allows(p.channel.value), Reason(p.channel.value)))
  }

  /** AllowSession: nothing for a tool or target that no session rule can name. */
  function AllowSession(s: State, id: nat): seq<Approval>
    requires HasPrompt(s, id)
  {
    var p := s.prompts[id];
    if Rule.Recordable(p.tool, p.target) then [Approval(id, p.tool, p.target)] else []
  }

  function Apply(s: State, step: Step): State
    requires Enabled(s, step)
  {
    match step
    case Ask(tool, target) =>
      s.(prompts := s.prompts + [Prompt(tool, target, Registered, Open, None)],
         pending := s.pending[|s.prompts| := (tool, target)])
    case EmitRequest(id) =>
      SetPrompt(s, id, s.prompts[id].(pc := Waiting)).(events := s.events + [Request(id)])
    case Timeout(id) => SetPrompt(s, id, s.prompts[id].(pc := Expiring("timeout")))
    case Cancel(id) => SetPrompt(s, id, s.prompts[id].(pc := Expiring("deny")))
    case Receive(id) => SetPrompt(s, id, Deliver(s.prompts[id]))
    case Expire(id) =>
      var verdict := s.prompts[id].pc.verdict;
      if id in s.pending
      then SetPrompt(s, id, s.prompts[id].(pc := Announcing(verdict), claim := ByExpiry(verdict)))
           .(pending := s.pending - {id})
      else SetPrompt(s, id, s.prompts[id].(pc := Lost(verdict)))
    case Announce(id) =>
      var verdict := s.prompts[id].pc.verdict;
      SetPrompt(s, id, s.prompts[id].(pc := Returning(false, ExpiryReason(verdict))))
        .(events := s.events + [Resolved(id, verdict)])
    case Finish(id) =>
      SetPrompt(s, id, s.prompts[id].(pc := Done(s.prompts[id].pc.allow, s.prompts[id].pc.reason)))
        .(pending := s.pending - {id})
    case Resolve(id, decision) => s.(resolvers := s.resolvers + [Resolver(id, decision, Claiming)])
    case TakeClaim(r) =>
      var id := s.resolvers[r].id;
      if id in s.pending && HasPrompt(s, id)
      then SetResolver(SetPrompt(s, id, s.prompts[id].(claim := ByResolver(r))), r, Recording)
           .(pending := s.pending - {id})
      else SetResolver(s, r, Refused)
    case Record(r) =>
      var id := s.resolvers[r].id;
      var more := if s.resolvers[r].decision == ALWAYS && HasPrompt(s, id) then AllowSession(s, id) else [];
      SetResolver(s, r, Emitting).(approvals := s.approvals + more)
    case EmitResolved(r) =>
      SetResolver(s, r, Sending).(events := s.events + [Resolved(s.resolvers[r].id, s.resolvers[r].decision)])
    case Send(r) =>
      var id := s.resolvers[r].id;
      var p := s.prompts[id];
      var answered := if p.channel.None? then p.(channel := Some(s.resolvers[r].decision)) else p;
      SetResolver(SetPrompt(s, id, answered), r, Accepted)
  }

  /** The state after a run, or None when some step was not enabled. */
  function After(steps: seq<Step>): Option<State> {
    if steps == [] then Some(Init())
    else
      var n := |steps| - 1;
      match After(steps[..n])
      case None => None
      case Some(s) => if Enabled(s, steps[n]) then Some(Apply(s, steps[n])) else None
  }

  /** The decisions of the permission_resolved events for one prompt, in order. */
  function Verdicts(events: seq<Event>, id: nat): seq<string> {
    if events == [] then []
    else
      var n := |events| - 1;
      Verdicts(events[..n], id) + (if events[n].Resolved? && events[n].id == id then [events[n].verdict] else [])
  }

  lemma {:induction false} VerdictsSnoc(events: seq<Event>, e: Event)
    ensures forall id :: Verdicts(events + [e], id) ==
                         Verdicts(events, id) + (if e.Resolved? && e.id == id then [e.verdict] else [])
  {
    assert (events + [e])[..|events|] == events;
  }

  // ----- The invariant -----

  predicate Claimed(pc: ResolverPc) {
    pc.Recording? || pc.Emitting? || pc.Sending? || pc.Accepted?
  }

  ghost predicate OpenOk(s: State, id: nat, p: Prompt) {
    && id in s.pending && s.pending[id] == (p.tool, p.target)
    && p.channel.None? && Verdicts(s.events, id) == []
    && (p.pc.Registered? || p.pc.Waiting? || p.pc.Expiring?)
  }

  ghost predicate ExpiredOk(s: State, id: nat, p: Prompt) {
    && p.claim.ByExpiry? && p.claim.verdict in {"deny", "timeout"}
    && id !in s.pending && p.channel.None?
    && match p.pc
       case Announcing(verdict) => verdict == p.claim.verdict && Verdicts(s.events, id) == []
       case Returning(allow, reason) =>
         !allow && reason == ExpiryReason(p.claim.verdict) && Verdicts(s.events, id) == [p.claim.verdict]
       case Done(allow, reason) =>
         !allow && reason == ExpiryReason(p.claim.verdict) && Verdicts(s.events, id) == [p.claim.verdict]
       case _ => false
  }

  ghost predicate ResolvedOk(s: State, id: nat, p: Prompt) {
    && p.claim.ByResolver? && p.claim.r < |s.resolvers|
    && id !in s.pending
    && var v := s.resolvers[p.claim.r];
       && v.id == id && Claimed(v.pc)
       && Verdicts(s.events, id) == (if v.pc.Sending? || v.pc.Accepted? then [v.decision] else [])
       && (v.decision == ALWAYS && !v.pc.Recording? && Rule.Recordable(p.tool, p.target)
           ==> Approval(id, p.tool, p.target) in s.approvals)
       && match p.pc
          case Announcing(_) => false
          case Returning(allow, reason) =>
            v.pc.Accepted? && allow == Allows(v.decision) && reason == Reason(v.decision) && p.channel.None?
          case Done(allow, reason) =>
            v.pc.Accepted? && allow == Allows(v.decision) && reason == Reason(v.decision) && p.channel.None?
          case _ => p.channel == if v.pc.Accepted? then Some(v.decision) else None
  }

  ghost predicate PromptOk(s: State, id: nat)
    requires HasPrompt(s, id)
  {
    var p := s.prompts[id];
    && (p.pc.Expiring? ==> p.pc.verdict in {"deny", "timeout"})
    && match p.claim
       case Open => OpenOk(s, id, p)
       case ByExpiry(_) => ExpiredOk(s, id, p)
       case ByResolver(_) => ResolvedOk(s, id, p)
  }

  ghost predicate ResolverOk(s: State, r: nat)
    requires r < |s.resolvers|
  {
    Claimed(s.resolvers[r].pc) ==>
      HasPrompt(s, s.resolvers[r].id) && s.prompts[s.resolvers[r].id].claim == ByResolver(r)
  }

  /** An approval belongs to a prompt that a Resolve call with "always_allow" has claimed. */
  ghost predicate ApprovalOk(s: State, a: Approval) {
    && HasPrompt(s, a.id) && a.tool == s.prompts[a.id].tool && a.target == s.prompts[a.id].target
    && Rule.Recordable(a.tool, a.target)
    && s.prompts[a.id].claim.ByResolver? && s.prompts[a.id].claim.r < |s.resolvers|
    && var v := s.resolvers[s.prompts[a.id].claim.r];
       v.id == a.id && v.decision == ALWAYS && Claimed(v.pc) && !v.pc.Recording?
  }

  ghost predicate Inv(s: State) {
    && (forall id :: 0 <= id < |s.prompts| ==> PromptOk(s, id))
    && (forall r :: 0 <= r < |s.resolvers| ==> ResolverOk(s, r))
    && (forall k :: 0 <= k < |s.approvals| ==> ApprovalOk(s, s.approvals[k]))
    && (forall id :: id in s.pending ==> HasPrompt(s, id))
    && (forall id :: id >= |s.prompts| ==> Verdicts(s.events, id) == [])
    && (forall j, k :: 0 <= j < k < |s.approvals| ==> s.approvals[j].id != s.approvals[k].id)
  }

  // ----- Every step keeps it -----

  /** What the invariant of one prompt reads, besides the prompt itself, is unchanged. */
  ghost predicate SameAround(s: State, s': State, id: nat) {
    && (id in s.pending <==> id in s'.pending)
    && (id in s.pending ==> s.pending[id] == s'.pending[id])
    && Verdicts(s.events, id) == Verdicts(s'.events, id)
    && (forall a :: a in s.approvals && a.id == id ==> a in s'.approvals)
    && |s.resolvers| <= |s'.resolvers|
    && (forall r :: 0 <= r < |s.resolvers| && s.resolvers[r].id == id && Claimed(s.resolvers[r].pc)
                    ==> s'.resolvers[r] == s.resolvers[r])
  }

  /** What never changes: the identity of prompts and Resolve calls, a claim once taken, and a
      Resolve call's way forward. */
  ghost predicate Later(s: State, s': State) {
    && |s.prompts| <= |s'.prompts|
    && (forall i :: 0 <= i < |s.prompts| ==>
          && s'.prompts[i].tool == s.prompts[i].tool && s'.prompts[i].target == s.prompts[i].target
          && (s'.prompts[i].claim == s.prompts[i].claim || s.prompts[i].claim.Open?))
    && |s.resolvers| <= |s'.resolvers|
    && (forall r :: 0 <= r < |s.resolvers| ==>
          && s'.resolvers[r].id == s.resolvers[r].id && s'.resolvers[r].decision == s.resolvers[r].decision
          && (Claimed(s.resolvers[r].pc) ==> Claimed(s'.resolvers[r].pc))
          && (Claimed(s.resolvers[r].pc) && !s.resolvers[r].pc.Recording? ==> !s'.resolvers[r].pc.Recording?))
  }

  /** The invariant after a step that concerns prompt id and Resolve call r at most. */
  lemma {:induction false} Rebuild(s: State, s': State, id: int, r: int)
    requires Inv(s) && Later(s, s')
    requires |s'.prompts| <= |s.prompts| + (if id == |s.prompts| then 1 else 0)
    requires |s'.resolvers| <= |s.resolvers| + (if r == |s.resolvers| then 1 else 0)
    requires forall i: nat :: i < |s.prompts| && i != id ==> s'.prompts[i] == s.prompts[i] && SameAround(s, s', i)
    requires forall q: nat :: q < |s.resolvers| && q != r ==> s'.resolvers[q] == s.resolvers[q]
    requires 0 <= id < |s'.prompts| ==> PromptOk(s', id)
    requires 0 <= r < |s'.resolvers| ==> ResolverOk(s', r)
    requires forall i :: i in s'.pending ==> i < |s'.prompts|
    requires forall i: nat :: i >= |s'.prompts| ==> Verdicts(s'.events, i) == []
    requires s'.approvals == s.approvals
    ensures Inv(s')
  {
    forall i: nat | i < |s'.prompts| ensures PromptOk(s', i) {
      if i != id { assert PromptOk(s, i); }
    }
    forall q: nat | q < |s'.resolvers| ensures ResolverOk(s', q) {
      if q != r { assert ResolverOk(s, q); }
    }
    ApprovalsLater(s, s');
  }

  lemma {:induction false} ApprovalsLater(s: State, s': State)
    requires Later(s, s') && forall k :: 0 <= k < |s.approvals| ==> ApprovalOk(s, s.approvals[k])
    ensures forall k :: 0 <= k < |s.approvals| ==> ApprovalOk(s', s.approvals[k])
  {
    forall k | 0 <= k < |s.approvals| ensures ApprovalOk(s', s.approvals[k]) {
      assert ApprovalOk(s, s.approvals[k]);
    }
  }

  /** Steps of one prompt that touch neither the map, the events nor the claim. */
  lemma {:induction false} QuietKeeps(s: State, id: nat, p: Prompt)
    requires Inv(s) && HasPrompt(s, id)
    requires p.claim == s.prompts[id].claim && p.tool == s.prompts[id].tool && p.target == s.prompts[id].target
    requires PromptOk(SetPrompt(s, id, p), id)
    ensures Inv(SetPrompt(s, id, p))
  {
    Rebuild(s, SetPrompt(s, id, p), id, -1);
  }

  lemma {:induction false} AskKeeps(s: State, tool: string, target: string)
    requires Inv(s)
    ensures Inv(Apply(s, Ask(tool, target)))
  {
    var s' := Apply(s, Ask(tool, target));
    assert PromptOk(s', |s.prompts|);
    Rebuild(s, s', |s.prompts|, -1);
  }

  lemma {:induction false} ResolveKeeps(s: State, id: nat, decision: string)
    requires Inv(s)
    ensures Inv(Apply(s, Resolve(id, decision)))
  {
    Rebuild(s, Apply(s, Resolve(id, decision)), -1, |s.resolvers|);
  }

  lemma {:induction false} EmitRequestKeeps(s: State, id: nat)
    requires Inv(s) && Enabled(s, EmitRequest(id))
    ensures Inv(Apply(s, EmitRequest(id)))
  {
    var s' := Apply(s, EmitRequest(id));
    VerdictsSnoc(s.events, Request(id));
    assert PromptOk(s, id);
    assert PromptOk(s', id);
    Rebuild(s, s', id, -1);
  }

  lemma {:induction false} ExpireKeeps(s: State, id: nat)
    requires Inv(s) && Enabled(s, Expire(id))
    ensures Inv(Apply(s, Expire(id)))
  {
    var s' := Apply(s, Expire(id));
    assert PromptOk(s, id);
    assert PromptOk(s', id);
    Rebuild(s, s', id, -1);
  }

  lemma {:induction false} AnnounceKeeps(s: State, id: nat)
    requires Inv(s) && Enabled(s, Announce(id))
    ensures Inv(Apply(s, Announce(id)))
  {
    var s' := Apply(s, Announce(id));
    VerdictsSnoc(s.events, Resolved(id, s.prompts[id].pc.verdict));
    assert PromptOk(s, id);
    assert PromptOk(s', id);
    Rebuild(s, s', id, -1);
  }

  lemma {:induction false} FinishKeeps(s: State, id: nat)
    requires Inv(s) && Enabled(s, Finish(id))
    ensures Inv(Apply(s, Finish(id)))
  {
    var s' := Apply(s, Finish(id));
    assert PromptOk(s, id);
    assert PromptOk(s', id);
    Rebuild(s, s', id, -1);
  }

  lemma {:induction false} TakeClaimKeeps(s: State, r: nat)
    requires Inv(s) && Enabled(s, TakeClaim(r))
    ensures Inv(Apply(s, TakeClaim(r)))
  {
    var s', id := Apply(s, TakeClaim(r)), s.resolvers[r].id;
    if id in s.pending {
      assert PromptOk(s, id);
      assert PromptOk(s', id);
      Rebuild(s, s', id, r);
    } else {
      Rebuild(s, s', -1, r);
    }
  }

  lemma {:induction false} RecordedPrompt(s: State, r: nat)
    requires Enabled(s, Record(r)) && ResolverOk(s, r) && PromptOk(s, s.resolvers[r].id)
    ensures PromptOk(Apply(s, Record(r)), s.resolvers[r].id)
  {
  }

  lemma {:induction false} RecordKeeps(s: State, r: nat)
    requires Inv(s) && Enabled(s, Record(r))
    ensures Inv(Apply(s, Record(r)))
  {
    var s', id := Apply(s, Record(r)), s.resolvers[r].id;
    assert ResolverOk(s, r) && PromptOk(s, id);
    RecordedPrompt(s, r);
    forall i: nat | i < |s'.prompts| ensures PromptOk(s', i) {
      if i != id {
        assert PromptOk(s, i);
        assert SameAround(s, s', i);
      }
    }
    forall q: nat | q < |s'.resolvers| ensures ResolverOk(s', q) { assert ResolverOk(s, q); }
    RecordedApprovals(s, r);
  }

  lemma {:induction false} NotYetApproved(s: State, r: nat)
    requires Inv(s) && Enabled(s, Record(r))
    ensures HasPrompt(s, s.resolvers[r].id)
    ensures forall k :: 0 <= k < |s.approvals| ==> s.approvals[k].id != s.resolvers[r].id
  {
    assert ResolverOk(s, r);
    forall k | 0 <= k < |s.approvals| ensures s.approvals[k].id != s.resolvers[r].id {
      assert ApprovalOk(s, s.approvals[k]);
    }
  }

  lemma {:induction false} NewApproval(s: State, r: nat, a: Approval)
    requires Enabled(s, Record(r)) && ResolverOk(s, r) && s.resolvers[r].decision == ALWAYS
    requires HasPrompt(s, s.resolvers[r].id) && AllowSession(s, s.resolvers[r].id) == [a]
    ensures ApprovalOk(Apply(s, Record(r)), a) && a.id == s.resolvers[r].id
  {
    assert [a][0] == a;
  }

  lemma {:induction false} RecordedApprovals(s: State, r: nat)
    requires Inv(s) && Enabled(s, Record(r))
    ensures var as' := Apply(s, Record(r)).approvals;
      && (forall k :: 0 <= k < |as'| ==> ApprovalOk(Apply(s, Record(r)), as'[k]))
      && (forall j, k :: 0 <= j < k < |as'| ==> as'[j].id != as'[k].id)
  {
    var s', id := Apply(s, Record(r)), s.resolvers[r].id;
    NotYetApproved(s, r);
    ApprovalsLater(s, s');
    if s'.approvals != s.approvals {
      var a := AllowSession(s, id)[0];
      assert ResolverOk(s, r) && s'.approvals == s.approvals + [a];
      NewApproval(s, r, a);
      ApprovalsSnoc(s', s.approvals, a);
    }
  }

  lemma {:induction false} ApprovalsSnoc(s: State, before: seq<Approval>, a: Approval)
    requires ApprovalOk(s, a) && forall k :: 0 <= k < |before| ==> ApprovalOk(s, before[k]) && before[k].id != a.id
    requires forall j, k :: 0 <= j < k < |before| ==> before[j].id != before[k].id
    ensures forall k :: 0 <= k < |before + [a]| ==> ApprovalOk(s, (before + [a])[k])
    ensures forall j, k :: 0 <= j < k < |before + [a]| ==> (before + [a])[j].id != (before + [a])[k].id
  {
  }

  lemma {:induction false} EmitResolvedPrompt(s: State, r: nat)
    requires Inv(s) && Enabled(s, EmitResolved(r))
    ensures HasPrompt(s, s.resolvers[r].id) && PromptOk(Apply(s, EmitResolved(r)), s.resolvers[r].id)
  {
    var v := s.resolvers[r];
    VerdictsSnoc(s.events, Resolved(v.id, v.decision));
    assert ResolverOk(s, r) && PromptOk(s, v.id);
  }

  lemma {:induction false} EmitResolvedKeeps(s: State, r: nat)
    requires Inv(s) && Enabled(s, EmitResolved(r))
    ensures Inv(Apply(s, EmitResolved(r)))
  {
    var s', v := Apply(s, EmitResolved(r)), s.resolvers[r];
    EmitResolvedPrompt(s, r);
    VerdictsSnoc(s.events, Resolved(v.id, v.decision));
    assert ResolverOk(s, r);
    assert ResolverOk(s', r);
    forall i: nat | i < |s.prompts| && i != v.id ensures SameAround(s, s', i) { }
    Rebuild(s, s', v.id, r);
  }

  lemma {:induction false} SendKeeps(s: State, r: nat)
    requires Inv(s) && Enabled(s, Send(r))
    ensures Inv(Apply(s, Send(r)))
  {
    var s', id := Apply(s, Send(r)), s.resolvers[r].id;
    assert ResolverOk(s, r) && PromptOk(s, id);
    assert PromptOk(s', id);
    Rebuild(s, s', id, r);
  }

  lemma {:induction false} StepKeeps(s: State, step: Step)
    requires Inv(s) && Enabled(s, step)
    ensures Inv(Apply(s, step))
  {
    match step {
      case Ask(tool, target) => AskKeeps(s, tool, target);
      case EmitRequest(id) => EmitRequestKeeps(s, id);
      case Timeout(id) => assert PromptOk(s, id); QuietKeeps(s, id, s.prompts[id].(pc := Expiring("timeout")));
      case Cancel(id) => assert PromptOk(s, id); QuietKeeps(s, id, s.prompts[id].(pc := Expiring("deny")));
      case Receive(id) => assert PromptOk(s, id); QuietKeeps(s, id, Deliver(s.prompts[id]));
      case Expire(id) => ExpireKeeps(s, id);
      case Announce(id) => AnnounceKeeps(s, id);
      case Finish(id) => FinishKeeps(s, id);
      case Resolve(id, decision) => ResolveKeeps(s, id, decision);
      case TakeClaim(r) => TakeClaimKeeps(s, r);
      case Record(r) => RecordKeeps(s, r);
      case EmitResolved(r) => EmitResolvedKeeps(s, r);
      case Send(r) => SendKeeps(s, r);
    }
  }

  lemma {:induction false} RunInv(steps: seq<Step>, s: State)
    requires After(steps) == Some(s)
    ensures Inv(s)
    decreases |steps|
  {
    if steps != [] {
      var n := |steps| - 1;
      var before := After(steps[..n]).value;
      RunInv(steps[..n], before);
      StepKeeps(before, steps[n]);
    }
  }

  // ----- Theorems, over every interleaving -----

  /** The decision with which a prompt has returned or is about to, if any. */
  predicate Answered(p: Prompt, allow: bool, reason: string) {
    p.pc == Returning(allow, reason) || p.pc == Done(allow, reason)
  }

  /** A prompt that has its answer has exactly one permission_resolved event, from the one that claimed it.
      The answer and its reason say what the event says, and the approval for exactly this tool and target
      is recorded by then if and only if the event says "always_allow" and a session rule can name them. */
  lemma {:induction false} AnswerAgrees(steps: seq<Step>, s: State, id: nat, allow: bool, reason: string)
    requires After(steps) == Some(s) && HasPrompt(s, id) && Answered(s.prompts[id], allow, reason)
    ensures |Verdicts(s.events, id)| == 1
    ensures var claim, verdict := s.prompts[id].claim, Verdicts(s.events, id)[0];
            match claim
            case Open => false
            case ByExpiry(v) => verdict == v && v in {"deny", "timeout"}
            case ByResolver(r) => r < |s.resolvers| && s.resolvers[r].id == id && s.resolvers[r].decision == verdict
    ensures var claim, verdict := s.prompts[id].claim, Verdicts(s.events, id)[0];
            && (allow <==> verdict == "allow" || verdict == "always_allow")
            && reason == (if allow then "approved"
                          else if claim.ByResolver? then "denied"
                          else if verdict == "timeout" then "timeout" else "cancelled")
    ensures Approval(id, s.prompts[id].tool, s.prompts[id].target) in s.approvals <==>
            Verdicts(s.events, id)[0] == "always_allow" && Rule.Recordable(s.prompts[id].tool, s.prompts[id].target)
  {
    RunInv(steps, s);
    assert PromptOk(s, id);
    var a := Approval(id, s.prompts[id].tool, s.prompts[id].target);
    if a in s.approvals { assert ApprovalOk(s, a); }
  }

  // ----- Where an answer comes from -----

  /** Nothing but the user's own words and the clock decides a prompt: each claim has its step in the run. */
  ghost predicate HasCause(steps: seq<Step>, s: State, id: nat)
    requires HasPrompt(s, id)
  {
    var p := s.prompts[id];
    && Ask(p.tool, p.target) in steps
    && (p.pc.Expiring? ==> ExpiryIn(steps, id, p.pc.verdict))
    && (p.claim.ByExpiry? ==> ExpiryIn(steps, id, p.claim.verdict))
  }

  predicate ExpiryIn(steps: seq<Step>, id: nat, verdict: string) {
    (verdict == "timeout" && Timeout(id) in steps) || (verdict == "deny" && Cancel(id) in steps)
  }

  ghost predicate AllCaused(steps: seq<Step>, s: State) {
    && (forall id :: 0 <= id < |s.prompts| ==> HasCause(steps, s, id))
    && (forall r :: 0 <= r < |s.resolvers| ==> Resolve(s.resolvers[r].id, s.resolvers[r].decision) in steps)
  }

  lemma {:induction false} StepCaused(steps: seq<Step>, s: State, step: Step)
    requires AllCaused(steps, s) && Enabled(s, step)
    ensures AllCaused(steps + [step], Apply(s, step))
  {
    var s', more := Apply(s, step), steps + [step];
    assert forall x :: x in steps ==> x in more;
    assert more[|steps|] == step;
    forall id | 0 <= id < |s'.prompts| ensures HasCause(more, s', id) {
      assert id < |s.prompts| ==> HasCause(steps, s, id);
    }
  }

  lemma {:induction false} RunCaused(steps: seq<Step>, s: State)
    requires After(steps) == Some(s)
    ensures AllCaused(steps, s)
    decreases |steps|
  {
    if steps != [] {
      var n := |steps| - 1;
      RunCaused(steps[..n], After(steps[..n]).value);
      StepCaused(steps[..n], After(steps[..n]).value, steps[n]);
      assert steps == steps[..n] + [steps[n]];
    }
  }

  /** An answer is what a user said of this very prompt, or its own timeout or cancellation. */
  lemma {:induction false} AnswerHasCause(steps: seq<Step>, s: State, id: nat, allow: bool, reason: string)
    requires After(steps) == Some(s) && HasPrompt(s, id) && Answered(s.prompts[id], allow, reason)
    ensures Ask(s.prompts[id].tool, s.prompts[id].target) in steps
    ensures match reason
            case "approved" => Resolve(id, "allow") in steps || Resolve(id, "always_allow") in steps
            case "denied" => exists d :: d !in ["allow", "always_allow"] && Resolve(id, d) in steps
            case "timeout" => Timeout(id) in steps
            case _ => reason == "cancelled" && Cancel(id) in steps
  {
    AnswerAgrees(steps, s, id, allow, reason);
    RunCaused(steps, s);
    assert HasCause(steps, s, id);
    var claim := s.prompts[id].claim;
    if claim.ByResolver? {
      assert Resolve(id, s.resolvers[claim.r].decision) in steps;
    }
  }

  // ----- The session's rules -----

  /** The patterns that the session has recorded. */
  function Patterns(approvals: seq<Approval>, windows: bool): (patterns: seq<string>)
    requires forall k :: 0 <= k < |approvals| ==> Rule.Recordable(approvals[k].tool, approvals[k].target)
    ensures |patterns| == |approvals|
    ensures forall k :: 0 <= k < |approvals| ==>
                        Rule.SessionPattern(approvals[k].tool, approvals[k].target, windows) == Some(patterns[k])
  {
    seq(|approvals|, k requires 0 <= k < |approvals| =>
          Rule.SessionPattern(approvals[k].tool, approvals[k].target, windows).value)
  }

  /** The call is the approved one, up to blank ends of what was approved. */
  predicate IsApproved(a: Approval, n: string, t: string, windows: bool) {
    n == Rule.TrimSpace(a.tool) && Rule.Normalize(t, windows) == Rule.Normalize(Rule.TrimSpace(a.target), windows)
  }

  lemma {:induction false} AllRecordable(steps: seq<Step>, s: State)
    requires After(steps) == Some(s)
    ensures forall k :: 0 <= k < |s.approvals| ==> Rule.Recordable(s.approvals[k].tool, s.approvals[k].target)
  {
    RunInv(steps, s);
    forall k | 0 <= k < |s.approvals| ensures Rule.Recordable(s.approvals[k].tool, s.approvals[k].target) {
      assert ApprovalOk(s, s.approvals[k]);
    }
  }

  /** In every run the session's rules match the approved calls and no others. */
  lemma {:induction false} RulesAreApprovals(steps: seq<Step>, s: State, windows: bool, n: string, t: string)
    requires After(steps) == Some(s)
    ensures forall k :: 0 <= k < |s.approvals| ==> Rule.Recordable(s.approvals[k].tool, s.approvals[k].target)
    ensures Rule.SomeRuleMatches(Patterns(s.approvals, windows), n, t, windows) <==>
            exists k :: 0 <= k < |s.approvals| && IsApproved(s.approvals[k], n, t, windows)
  {
    AllRecordable(steps, s);
    var patterns := Patterns(s.approvals, windows);
    forall k | 0 <= k < |patterns|
      ensures Rule.RuleMatches(patterns[k], n, t, windows) <==> IsApproved(s.approvals[k], n, t, windows)
    {
      Rule.SessionRuleIsExact(s.approvals[k].tool, s.approvals[k].target, windows, n, t);
    }
  }

  /** The rules that a run starts with, and keeps to its end, when the session began with `base`. */
  function RulesAtStart(base: Rule.Rules, approvals: seq<Approval>, windows: bool): Rule.Rules
    requires forall k :: 0 <= k < |approvals| ==> Rule.Recordable(approvals[k].tool, approvals[k].target)
  {
    base.(allow := base.allow + Patterns(approvals, windows))
  }

  /** For a run that starts now, everything recorded changes the decision of the approved calls only, and of
      these only when no rule decided them before. */
  lemma {:induction false} RulesOfLaterRuns(steps: seq<Step>, s: State, base: Rule.Rules, windows: bool, n: string,
                                            t: string)
    requires After(steps) == Some(s)
    ensures forall k :: 0 <= k < |s.approvals| ==> Rule.Recordable(s.approvals[k].tool, s.approvals[k].target)
    ensures Rule.RuleDecision(RulesAtStart(base, s.approvals, windows), n, t, windows) ==
              if Rule.RuleDecision(base, n, t, windows).None?
                 && exists k :: 0 <= k < |s.approvals| && IsApproved(s.approvals[k], n, t, windows)
              then Some(Rule.Allow)
              else Rule.RuleDecision(base, n, t, windows)
  {
    RulesAreApprovals(steps, s, windows, n, t);
    Rule.SomeRuleConcat(base.allow, Patterns(s.approvals, windows), n, t, windows);
  }

  /** When a prompt has been answered "always_allow", its call is allowed in a run that starts later, unless a
      deny or ask rule says otherwise, provided that its tool and target have no blank ends and the tool no
      parenthesis. */
  lemma {:induction false} AllowedInLaterRuns(steps: seq<Step>, s: State, id: nat, base: Rule.Rules, windows: bool)
    requires After(steps) == Some(s) && HasPrompt(s, id)
    requires Answered(s.prompts[id], true, "approved") && Verdicts(s.events, id) == [ALWAYS]
    requires var p := s.prompts[id];
      Rule.Trimmed(p.tool) && Rule.Trimmed(p.target) && '(' !in p.tool && ')' !in p.tool
    ensures forall k :: 0 <= k < |s.approvals| ==> Rule.Recordable(s.approvals[k].tool, s.approvals[k].target)
    ensures var p := s.prompts[id];
      Rule.RuleDecision(RulesAtStart(base, s.approvals, windows), p.tool, p.target, windows) ==
      Some(if Rule.SomeRuleMatches(base.deny, p.tool, p.target, windows) then Rule.Deny
           else if Rule.SomeRuleMatches(base.ask, p.tool, p.target, windows) then Rule.Ask
           else Rule.Allow)
  {
    var p := s.prompts[id];
    Rule.TrimmedStays(p.tool);
    Rule.TrimmedStays(p.target);
    ApprovedIsRecorded(steps, s, id, windows);
    RulesOfLaterRuns(steps, s, base, windows, p.tool, p.target);
  }

  lemma {:induction false} ApprovedIsRecorded(steps: seq<Step>, s: State, id: nat, windows: bool)
    requires After(steps) == Some(s) && HasPrompt(s, id)
    requires Answered(s.prompts[id], true, "approved") && Verdicts(s.events, id) == [ALWAYS]
    requires Rule.Recordable(s.prompts[id].tool, s.prompts[id].target)
    requires Rule.TrimSpace(s.prompts[id].tool) == s.prompts[id].tool
    requires Rule.TrimSpace(s.prompts[id].target) == s.prompts[id].target
    ensures var p := s.prompts[id];
      exists k :: 0 <= k < |s.approvals| && IsApproved(s.approvals[k], p.tool, p.target, windows)
  {
    var p := s.prompts[id];
    AnswerAgrees(steps, s, id, true, "approved");
    var k :| 0 <= k < |s.approvals| && s.approvals[k] == Approval(id, p.tool, p.target);
    assert IsApproved(s.approvals[k], p.tool, p.target, windows);
  }

  /** No prompt ever has two permission_resolved events, and no other ID has any. */
  lemma {:induction false} ResolvedAtMostOnce(steps: seq<Step>, s: State, id: nat)
    requires After(steps) == Some(s)
    ensures |Verdicts(s.events, id)| <= 1
    ensures !HasPrompt(s, id) ==> Verdicts(s.events, id) == []
  {
    RunInv(steps, s);
    if HasPrompt(s, id) { assert PromptOk(s, id); }
  }

  /** At most one Resolve call on a prompt reports success. */
  lemma {:induction false} OneWinner(steps: seq<Step>, s: State, r: nat, q: nat)
    requires After(steps) == Some(s) && r < |s.resolvers| && q < |s.resolvers|
    requires s.resolvers[r].pc.Accepted? && s.resolvers[q].pc.Accepted? && s.resolvers[r].id == s.resolvers[q].id
    ensures r == q
  {
    RunInv(steps, s);
    assert ResolverOk(s, r) && ResolverOk(s, q);
  }

  /** An approval is recorded at most once per prompt, only for the prompt's own tool and target,
      and only when a Resolve call with "always_allow" won the claim: a timeout, a cancellation, a
      late or a plain decision never widens the rules. */
  lemma {:induction false} ApprovalsAreDecisions(steps: seq<Step>, s: State, k: nat)
    requires After(steps) == Some(s) && k < |s.approvals|
    ensures var a := s.approvals[k];
            && HasPrompt(s, a.id) && a.tool == s.prompts[a.id].tool && a.target == s.prompts[a.id].target
            && Rule.Recordable(a.tool, a.target)
            && (exists r :: 0 <= r < |s.resolvers| && s.resolvers[r].id == a.id
                            && s.resolvers[r].decision == "always_allow" && Claimed(s.resolvers[r].pc))
            && Verdicts(s.events, a.id) <= ["always_allow"]
            && (forall j :: 0 <= j < |s.approvals| && s.approvals[j].id == a.id ==> j == k)
  {
    RunInv(steps, s);
    assert ApprovalOk(s, s.approvals[k]) && PromptOk(s, s.approvals[k].id);
  }

  // ----- Every prompt is answered -----

  function PromptRank(p: Prompt): nat {
    match p.pc
    case Registered => 5
    case Waiting => 4
    case Expiring(_) => 3
    case Announcing(_) => 2
    case Lost(_) => 2
    case Returning(_, _) => 1
    case Done(_, _) => 0
  }

  function ClaimRank(s: State, p: Prompt): nat {
    match p.claim
    case Open => 4
    case ByExpiry(_) => 0
    case ByResolver(r) =>
      if r >= |s.resolvers| then 0
      else match s.resolvers[r].pc
           case Recording => 3
           case Emitting => 2
           case Sending => 1
           case _ => 0
  }

  /** Steps still needed before prompt id has returned. */
  function Rank(s: State, id: nat): nat
    requires HasPrompt(s, id)
  {
    PromptRank(s.prompts[id]) + ClaimRank(s, s.prompts[id])
  }

  predicate ResolverStep(step: Step) {
    step.TakeClaim? || step.Record? || step.EmitResolved? || step.Send?
  }

  lemma {:induction false} ClaimDelaysNobody(s: State, r: nat, id: nat)
    requires HasPrompt(s, id) && PromptOk(s, id) && Enabled(s, TakeClaim(r))
    ensures HasPrompt(Apply(s, TakeClaim(r)), id) && Rank(Apply(s, TakeClaim(r)), id) <= Rank(s, id)
  {
  }

  lemma {:induction false} ResolverDelaysNobody(s: State, step: Step, id: nat)
    requires Inv(s) && Enabled(s, step) && HasPrompt(s, id) && ResolverStep(step)
    ensures HasPrompt(Apply(s, step), id) && Rank(Apply(s, step), id) <= Rank(s, id)
  {
    assert PromptOk(s, id);
    if step.TakeClaim? {
      ClaimDelaysNobody(s, step.r, id);
    } else {
      assert ResolverOk(s, step.r);
    }
  }

  /** No step of anyone delays a prompt. */
  lemma {:induction false} RankNeverGrows(s: State, step: Step, id: nat)
    requires Inv(s) && Enabled(s, step) && HasPrompt(s, id)
    ensures HasPrompt(Apply(s, step), id) && Rank(Apply(s, step), id) <= Rank(s, id)
  {
    assert PromptOk(s, id);
    if ResolverStep(step) { ResolverDelaysNobody(s, step, id); }
  }

  /** Until it has returned, some step that brings the prompt closer is enabled, without any user
      deciding: a waiter that lost the claim is always served, and nothing is ever stuck. */
  lemma {:induction false} PromptProgress(steps: seq<Step>, s: State, id: nat)
    requires After(steps) == Some(s) && HasPrompt(s, id) && !s.prompts[id].pc.Done?
    ensures exists step: Step :: !step.Ask? && !step.Resolve? && Enabled(s, step) && HasPrompt(Apply(s, step), id)
                                 && Rank(Apply(s, step), id) < Rank(s, id)
  {
    RunInv(steps, s);
    assert PromptOk(s, id);
    NextStepHelps(s, id);
  }

  lemma {:induction false} NextStepHelps(s: State, id: nat)
    requires HasPrompt(s, id) && PromptOk(s, id) && !s.prompts[id].pc.Done?
    ensures var step := NextStep(s, id);
            Enabled(s, step) && HasPrompt(Apply(s, step), id) && Rank(Apply(s, step), id) < Rank(s, id)
  {
    if s.prompts[id].pc.Lost? {
      LostIsServed(s, id);
    } else if s.prompts[id].pc.Expiring? {
      ExpiryHelps(s, id);
    }
  }

  lemma {:induction false} ExpiryHelps(s: State, id: nat)
    requires HasPrompt(s, id) && PromptOk(s, id) && s.prompts[id].pc.Expiring?
    ensures Rank(Apply(s, Expire(id)), id) < Rank(s, id)
  {
  }

  /** A waiter that lost the claim gets its value from the Resolve call that won it. */
  lemma {:induction false} LostIsServed(s: State, id: nat)
    requires HasPrompt(s, id) && PromptOk(s, id) && s.prompts[id].pc.Lost?
    ensures var step := NextStep(s, id);
            Enabled(s, step) && HasPrompt(Apply(s, step), id) && Rank(Apply(s, step), id) < Rank(s, id)
  {
    var r := s.prompts[id].claim.r;
    match s.resolvers[r].pc
    case Recording => assert NextStep(s, id) == Record(r);
    case Emitting => assert NextStep(s, id) == EmitResolved(r);
    case Sending => assert NextStep(s, id) == Send(r);
    case Accepted => assert NextStep(s, id) == Receive(id);
  }

  /** The step that a prompt waits for, when nobody answers it. */
  function NextStep(s: State, id: nat): Step
    requires HasPrompt(s, id)
  {
    var p := s.prompts[id];
    match p.pc
    case Registered => EmitRequest(id)
    case Waiting => Timeout(id)
    case Expiring(_) => Expire(id)
    case Announcing(_) => Announce(id)
    case Returning(_, _) => Finish(id)
    case Done(_, _) => Finish(id)
    case Lost(_) =>
      if p.claim.ByResolver? && p.claim.r < |s.resolvers| then
        match s.resolvers[p.claim.r].pc
        case Recording => Record(p.claim.r)
        case Emitting => EmitResolved(p.claim.r)
        case Sending => Send(p.claim.r)
        case _ => Receive(id)
      else Receive(id)
  }
}
