/** Running the tool calls of one turn (internal/agent/agent.go, speculative.go): every call gets
    one tool message, in call order, whatever becomes of it. */
module ToolTurn {
  import opened Options
  import opened Conversation
  import opened Batches

  /** What becomes of a call: the tool is unknown, its arguments cannot be marshalled or parsed,
      permission is refused, or it runs and its result is formatted as `reply`. */
  datatype Outcome =
    | Unknown
    | Unmarshalable(error: string)
    | Unparsable(error: string)
    | Refused(denied: bool, reason: string)
    | Permitted(safe: bool, reply: string)

  function Content(call: ToolCall, o: Outcome): string {
    match o
    case Unknown => "Error: unknown tool '" + call.name + "'"
    case Unmarshalable(error) => "Error: failed to marshal arguments: " + error
    case Unparsable(error) => "Error: invalid input format: " + error
    case Refused(denied, reason) =>
      "Permission denied: " + (if reason != "" then reason
                               else if denied then "tool execution denied by policy"
                               else "tool requires interactive permission")
    case Permitted(_, reply) => reply
  }

  /** The tool message for a call. */
  function Reply(call: ToolCall, o: Outcome): Message {
    Message(Tool, Content(call, o), "", [], call.name)
  }

  function Replies(calls: seq<ToolCall>, outcomes: seq<Outcome>): (ms: History)
    requires |outcomes| == |calls|
  {
    seq(|calls|, i requires 0 <= i < |calls| => Reply(calls[i], outcomes[i]))
  }

  /** The message tells the model what became of the call: the reply of a tool that ran, or why it did not. */
  predicate IsReply(call: ToolCall, o: Outcome, m: Message) {
    && m.role == Tool && m.toolName == call.name && m.toolCalls == [] && m.thinking == ""
    && (o.Permitted? ==> m.content == o.reply)
    && (o.Refused? && o.reason != "" ==> m.content == "Permission denied: " + o.reason)
    && (o.Refused? && o.reason == "" && o.denied ==>
          m.content == "Permission denied: " + "tool execution denied by policy")
    && (o.Refused? && o.reason == "" && !o.denied ==>
          m.content == "Permission denied: " + "tool requires interactive permission")
    && (o.Unknown? ==> m.content == "Error: unknown tool '" + call.name + "'")
    && (o.Unmarshalable? ==> m.content == "Error: failed to marshal arguments: " + o.error)
    && (o.Unparsable? ==> m.content == "Error: invalid input format: " + o.error)
  }

  /** One message for each call, in order. */
  predicate AreReplies(calls: seq<ToolCall>, outcomes: seq<Outcome>, ms: History) {
    |ms| == |calls| == |outcomes| && forall k :: 0 <= k < |ms| ==> IsReply(calls[k], outcomes[k], ms[k])
  }

  lemma {:induction false} RepliesAre(calls: seq<ToolCall>, outcomes: seq<Outcome>)
    requires |outcomes| == |calls|
    ensures AreReplies(calls, outcomes, Replies(calls, outcomes))
  {
    forall k | 0 <= k < |calls| ensures IsReply(calls[k], outcomes[k], Replies(calls, outcomes)[k]) {
      ReplyIs(calls[k], outcomes[k]);
    }
  }

  lemma {:induction false} ReplyIs(call: ToolCall, o: Outcome)
    ensures IsReply(call, o, Reply(call, o))
  {
  }

  /** A turn's tool messages answer its calls, one each and in order. */
  lemma {:induction false} RepliesAnswer(calls: seq<ToolCall>, outcomes: seq<Outcome>)
    requires |outcomes| == |calls|
    ensures Answers(calls, Replies(calls, outcomes))
  {
  }

  datatype IndexedCall = IndexedCall(index: nat, id: nat, call: ToolCall, outcome: Outcome)

  predicate Parsed(o: Outcome) {
    o.Refused? || o.Permitted?
  }

  /** The first n calls that parse, with their positions and IDs. */
  function Indexed(calls: seq<ToolCall>, outcomes: seq<Outcome>, id0: nat, n: nat): seq<IndexedCall>
    requires n <= |calls| == |outcomes|
  {
    if n == 0 then []
    else
      var rest := Indexed(calls, outcomes, id0, n - 1);
      if Parsed(outcomes[n - 1]) then rest + [IndexedCall(n - 1, id0 + n - 1, calls[n - 1], outcomes[n - 1])] else rest
  }

  function OnlyPermitted(xs: seq<IndexedCall>): seq<IndexedCall> {
    if xs == [] then []
    else
      var n := |xs| - 1;
      OnlyPermitted(xs[..n]) + (if xs[n].outcome.Permitted? then [xs[n]] else [])
  }

  predicate EntryOk(x: IndexedCall, calls: seq<ToolCall>, outcomes: seq<Outcome>) {
    x.index < |calls| == |outcomes| && x.call == calls[x.index] && x.outcome == outcomes[x.index]
  }

  lemma {:induction false} IndexedEntries(calls: seq<ToolCall>, outcomes: seq<Outcome>, id0: nat, n: nat)
    requires n <= |calls| == |outcomes|
    ensures forall x :: x in Indexed(calls, outcomes, id0, n) ==>
                        EntryOk(x, calls, outcomes) && Parsed(x.outcome) && x.index < n
    ensures forall i :: 0 <= i < n && Parsed(outcomes[i]) ==>
              IndexedCall(i, id0 + i, calls[i], outcomes[i]) in Indexed(calls, outcomes, id0, n)
  {
    if n > 0 { IndexedEntries(calls, outcomes, id0, n - 1); }
  }

  /** The calls stand in the order in which the model made them. */
  predicate InCallOrder(xs: seq<IndexedCall>) {
    forall j, k :: 0 <= j < k < |xs| ==> xs[j].index < xs[k].index
  }

  lemma {:induction false} IndexedGrow(calls: seq<ToolCall>, outcomes: seq<Outcome>, id0: nat, n: nat)
    requires n <= |calls| == |outcomes|
    ensures InCallOrder(Indexed(calls, outcomes, id0, n))
  {
    if n > 0 {
      IndexedGrow(calls, outcomes, id0, n - 1);
      IndexedEntries(calls, outcomes, id0, n - 1);
      var rest := Indexed(calls, outcomes, id0, n - 1);
      assert forall k :: 0 <= k < |rest| ==> rest[k] in rest;
    }
  }

  lemma {:induction false} PermittedGrow(xs: seq<IndexedCall>)
    requires InCallOrder(xs)
    ensures InCallOrder(OnlyPermitted(xs))
  {
    if xs != [] {
      var n := |xs| - 1;
      PermittedGrow(xs[..n]);
      PermittedEntries(xs[..n]);
      var rest := OnlyPermitted(xs[..n]);
      forall k | 0 <= k < |rest| ensures rest[k].index < xs[n].index {
        assert rest[k] in rest;
        var j :| 0 <= j < n && xs[..n][j] == rest[k];
      }
    }
  }

  lemma {:induction false} PermittedEntries(xs: seq<IndexedCall>)
    ensures forall x :: x in OnlyPermitted(xs) <==> x in xs && x.outcome.Permitted?
  {
    if xs != [] {
      var n := |xs| - 1;
      PermittedEntries(xs[..n]);
      assert xs == xs[..n] + [xs[n]];
    }
  }

  function Below(n: nat): (s: set<nat>)
    ensures forall i: nat :: i in s <==> i < n
  {
    if n == 0 then {} else Below(n - 1) + {n - 1}
  }

  class ToolRunner {
    var nextToolID: nat

    constructor ()
      ensures nextToolID == 0
    {
      nextToolID := 0;
    }

    /** Looks every call up and parses its input; a call that fails gets its slot at once. */
    method BuildIndexed(calls: seq<ToolCall>, outcomes: seq<Outcome>, slots: array<Option<Message>>)
      returns (indexed: seq<IndexedCall>)
      requires |outcomes| == |calls| == slots.Length
      requires forall k :: 0 <= k < slots.Length ==> slots[k] == None
      modifies this, slots
      ensures nextToolID == old(nextToolID) + |calls|
      ensures indexed == Indexed(calls, outcomes, old(nextToolID), |calls|)
      ensures forall k :: 0 <= k < |calls| ==>
                slots[k] == if Parsed(outcomes[k]) then None else Some(Reply(calls[k], outcomes[k]))
    {
      indexed := [];
      for i := 0 to |calls|
        invariant nextToolID == old(nextToolID) + i
        invariant indexed == Indexed(calls, outcomes, old(nextToolID), i)
        invariant forall k :: 0 <= k < |calls| ==>
                    slots[k] == if k >= i || Parsed(outcomes[k]) then None else Some(Reply(calls[k], outcomes[k]))
      {
        var toolID := nextToolID;
        nextToolID := nextToolID + 1;
        match outcomes[i] {
          case Unknown => slots[i] := Some(Reply(calls[i], outcomes[i]));
          case Unmarshalable(_) => slots[i] := Some(Reply(calls[i], outcomes[i]));
          case Unparsable(_) => slots[i] := Some(Reply(calls[i], outcomes[i]));
          case Refused(_, _) => indexed := indexed + [IndexedCall(i, toolID, calls[i], outcomes[i])];
          case Permitted(_, _) => indexed := indexed + [IndexedCall(i, toolID, calls[i], outcomes[i])];
        }
      }
    }

    /** Asks permission for every parsed call; a refused call gets its slot here. */
    method CheckPermissions(ghost calls: seq<ToolCall>, ghost outcomes: seq<Outcome>, indexed: seq<IndexedCall>,
                            slots: array<Option<Message>>)
      returns (permitted: seq<IndexedCall>)
      requires |outcomes| == |calls| == slots.Length
      requires forall x :: x in indexed ==> EntryOk(x, calls, outcomes) && Parsed(x.outcome)
      modifies slots
      ensures permitted == OnlyPermitted(indexed)
      ensures forall k :: 0 <= k < |calls| ==>
                slots[k] == old(slots[k]) || (outcomes[k].Refused? && slots[k] == Some(Reply(calls[k], outcomes[k])))
      ensures forall x :: x in indexed && x.outcome.Refused? ==>
                x.index < slots.Length && slots[x.index] == Some(Reply(x.call, x.outcome))
    {
      permitted := [];
      for j := 0 to |indexed|
        invariant permitted == OnlyPermitted(indexed[..j])
        invariant forall k :: 0 <= k < |calls| ==>
                    slots[k] == old(slots[k])
                    || (outcomes[k].Refused? && slots[k] == Some(Reply(calls[k], outcomes[k])))
        invariant forall x :: x in indexed[..j] && x.outcome.Refused? ==>
                    x.index < slots.Length && slots[x.index] == Some(Reply(x.call, x.outcome))
      {
        var ic := indexed[j];
        assert ic in indexed && indexed[..j + 1] == indexed[..j] + [ic];
        assert indexed[..j + 1][..j] == indexed[..j];
        if ic.outcome.Refused? {
          slots[ic.index] := Some(Reply(ic.call, ic.outcome));
          continue;
        }
        permitted := permitted + [ic];
      }
      assert indexed[..|indexed|] == indexed;
    }

    /** Runs a batch of safe calls; each goroutine writes its own result, in any order. */
    method ExecuteConcurrentBatch(batch: Batch<IndexedCall>) returns (messages: History)
      ensures messages == seq(|batch.calls|, i requires 0 <= i < |batch.calls| =>
                                             Reply(batch.calls[i].call, batch.calls[i].outcome))
    {
      var n := |batch.calls|;
      var results := new Option<Message>[n](_ => None);
      var running := Below(n);
      while running != {}
        invariant forall i :: i in running ==> 0 <= i < n
        invariant forall i :: 0 <= i < n && i !in running ==>
                    results[i] == Some(Reply(batch.calls[i].call, batch.calls[i].outcome))
        decreases running
      {
        var i :| i in running;
        results[i] := Some(Reply(batch.calls[i].call, batch.calls[i].outcome));
        running := running - {i};
      }
      messages := [];
      for i := 0 to n
        invariant |messages| == i
        invariant forall k :: 0 <= k < i ==> messages[k] == Reply(batch.calls[k].call, batch.calls[k].outcome)
      {
        messages := messages + [results[i].value];
      }
    }

    /** ExecuteBatches: one message per call, in submission order. */
    method ExecuteBatches(batches: seq<Batch<IndexedCall>>) returns (messages: History)
      ensures var all := Flatten(batches);
              messages == seq(|all|, i requires 0 <= i < |all| => Reply(all[i].call, all[i].outcome))
    {
      messages := [];
      for b := 0 to |batches|
        invariant var done := Flatten(batches[..b]);
                  messages == seq(|done|, i requires 0 <= i < |done| => Reply(done[i].call, done[i].outcome))
      {
        var batch := batches[b];
        assert batches[..b + 1] == batches[..b] + [batch];
        FlattenSnoc(batches[..b], batch);
        if batch.safe && |batch.calls| > 1 {
          var more := ExecuteConcurrentBatch(batch);
          messages := messages + more;
        } else {
          ghost var before := messages;
          for i := 0 to |batch.calls|
            invariant messages == before + seq(i, k requires 0 <= k < i =>
                                                  Reply(batch.calls[k].call, batch.calls[k].outcome))
          {
            messages := messages + [Reply(batch.calls[i].call, batch.calls[i].outcome)];
          }
        }
      }
      assert batches[..|batches|] == batches;
    }

    method Collect(slots: array<Option<Message>>) returns (out: History)
      requires forall i :: 0 <= i < slots.Length ==> slots[i].Some?
      ensures |out| == slots.Length && forall i :: 0 <= i < |out| ==> slots[i] == Some(out[i])
    {
      out := [];
      for i := 0 to slots.Length
        invariant |out| == i && forall k :: 0 <= k < i ==> slots[k] == Some(out[k])
      {
        if slots[i].Some? {
          out := out + [slots[i].value];
        }
      }
    }

    /** Puts the executed messages back into the slots of their calls. */
    method FillSlots(ghost calls: seq<ToolCall>, ghost outcomes: seq<Outcome>, permitted: seq<IndexedCall>,
                     executed: History, slots: array<Option<Message>>)
      requires |outcomes| == |calls| == slots.Length && |executed| == |permitted|
      requires forall j :: 0 <= j < |permitted| ==>
                 EntryOk(permitted[j], calls, outcomes) && permitted[j].outcome.Permitted? &&
                 executed[j] == Reply(permitted[j].call, permitted[j].outcome)
      modifies slots
      ensures forall j :: 0 <= j < |permitted| ==>
                permitted[j].index < |calls| && slots[permitted[j].index] == Some(executed[j])
      ensures forall k :: 0 <= k < |calls| && !outcomes[k].Permitted? ==> slots[k] == old(slots[k])
    {
      for j := 0 to |executed|
        invariant forall i :: 0 <= i < j ==> slots[permitted[i].index] == Some(executed[i])
        invariant forall k :: 0 <= k < |calls| && !outcomes[k].Permitted? ==> slots[k] == old(slots[k])
      {
        slots[permitted[j].index] := Some(executed[j]);
      }
    }

    /** The calls to execute, with every other slot already filled. */
    method Prepare(calls: seq<ToolCall>, outcomes: seq<Outcome>, slots: array<Option<Message>>)
      returns (permitted: seq<IndexedCall>)
      requires |outcomes| == |calls| == slots.Length
      requires forall k :: 0 <= k < slots.Length ==> slots[k] == None
      modifies this, slots
      ensures nextToolID == old(nextToolID) + |calls|
      ensures forall j :: 0 <= j < |permitted| ==>
                EntryOk(permitted[j], calls, outcomes) && permitted[j].outcome.Permitted?
      ensures InCallOrder(permitted)
      ensures forall k :: 0 <= k < |calls| && outcomes[k].Permitted? ==>
                exists j :: 0 <= j < |permitted| && permitted[j].index == k
      ensures forall k :: 0 <= k < |calls| && !outcomes[k].Permitted? ==> slots[k] == Some(Reply(calls[k], outcomes[k]))
    {
      var indexed := BuildIndexed(calls, outcomes, slots);
      IndexedEntries(calls, outcomes, old(nextToolID), |calls|);
      permitted := CheckPermissions(calls, outcomes, indexed, slots);
      PermittedEntries(indexed);
      IndexedGrow(calls, outcomes, old(nextToolID), |calls|);
      PermittedGrow(indexed);
      forall j | 0 <= j < |permitted|
        ensures EntryOk(permitted[j], calls, outcomes) && permitted[j].outcome.Permitted?
      {
        assert permitted[j] in permitted;
      }
      forall k | 0 <= k < |calls| && outcomes[k].Permitted?
        ensures exists j :: 0 <= j < |permitted| && permitted[j].index == k
      {
        var x := IndexedCall(k, old(nextToolID) + k, calls[k], outcomes[k]);
        assert x in permitted;
        var j :| 0 <= j < |permitted| && permitted[j] == x;
      }
      forall k | 0 <= k < |calls| && outcomes[k].Refused? ensures slots[k] == Some(Reply(calls[k], outcomes[k])) {
        assert IndexedCall(k, old(nextToolID) + k, calls[k], outcomes[k]) in indexed;
      }
    }

    /** executeToolCallsConcurrent: exactly the replies to the calls, in call order. */
    method ExecuteToolCalls(calls: seq<ToolCall>, outcomes: seq<Outcome>) returns (out: History, count: nat)
      requires |outcomes| == |calls|
      modifies this
      ensures out == Replies(calls, outcomes)
      ensures Answers(calls, out) && AreReplies(calls, outcomes, out)
      ensures count == |calls|
      ensures nextToolID == old(nextToolID) + |calls|
    {
      var slots := new Option<Message>[|calls|](_ => None);
      var permitted := Prepare(calls, outcomes, slots);
      var batches := Partition(permitted, (x: IndexedCall) => x.outcome.Permitted? && x.outcome.safe);
      var executed := ExecuteBatches(batches);
      FillSlots(calls, outcomes, permitted, executed, slots);
      forall k | 0 <= k < |calls| ensures slots[k] == Some(Reply(calls[k], outcomes[k])) {
        if outcomes[k].Permitted? {
          var j :| 0 <= j < |permitted| && permitted[j].index == k;
          assert EntryOk(permitted[j], calls, outcomes);
        }
      }
      out := Collect(slots);
      count := |calls|;
      RepliesAnswer(calls, outcomes);
      RepliesAre(calls, outcomes);
    }
  }
}
