/** Messages and the pairing of tool calls with tool results (internal/llm/types.go). There are no
    tool-call IDs, so the only link between a call and its result is order. */
module Conversation {

  datatype Role = System | User | Assistant | Tool

  datatype ToolCall = ToolCall(name: string, arguments: string)

  datatype Message = Message(role: Role, content: string, thinking: string, toolCalls: seq<ToolCall>, toolName: string)

  type History = seq<Message>

  /** The messages are tool results, one per call, in the order of the calls. */
  predicate Answers(calls: seq<ToolCall>, ms: History) {
    |ms| == |calls| && forall i :: 0 <= i < |ms| ==> ms[i].role == Tool && ms[i].toolName == calls[i].name
  }

  /** The number of tool results that message m asks for. */
  function CallCount(m: Message): nat {
    if m.role == Assistant then |m.toolCalls| else 0
  }

  /** The first message is not a tool result, and its tool results directly follow it. */
  predicate HeadOk(ms: History) {
    && ms != []
    && ms[0].role != Tool
    && CallCount(ms[0]) < |ms|
    && forall j :: 1 <= j <= CallCount(ms[0]) ==>
         ms[j].role == Tool && ms[j].toolName == ms[0].toolCalls[j - 1].name
  }

  /** Each assistant message with k tool calls is directly followed by exactly k tool messages that
      answer them in order, and there are no other tool messages. */
  predicate Paired(ms: History) {
    ms == [] || (HeadOk(ms) && Paired(ms[1 + CallCount(ms[0])..]))
  }

  lemma {:induction false} HeadOkConcat(a: History, b: History)
    requires HeadOk(a)
    ensures HeadOk(a + b)
  {
    assert forall j :: 0 <= j < |a| ==> (a + b)[j] == a[j];
  }

  lemma {:induction false} PairedConcat(a: History, b: History)
    requires Paired(a) && Paired(b)
    ensures Paired(a + b)
    decreases |a|
  {
    if a == [] {
      assert a + b == b;
    } else {
      var k := CallCount(a[0]);
      PairedConcat(a[1 + k..], b);
      HeadOkConcat(a, b);
      assert (a + b)[1 + k..] == a[1 + k..] + b;
    }
  }

  lemma {:induction false} HeadFits(a: History, b: History)
    requires a != [] && HeadOk(a + b) && (b != [] ==> b[0].role != Tool)
    ensures CallCount(a[0]) < |a| && HeadOk(a)
  {
    var ms := a + b;
    assert b != [] ==> ms[|a|] == b[0];
    assert forall i :: 0 <= i < |a| ==> ms[i] == a[i];
  }

  /** A paired history may be cut before any message that is not a tool result. */
  lemma {:induction false} PairedCut(a: History, b: History)
    requires Paired(a + b) && (b != [] ==> b[0].role != Tool)
    ensures Paired(a) && Paired(b)
    decreases |a|
  {
    if a == [] {
      assert a + b == b;
    } else {
      var k := CallCount(a[0]);
      HeadFits(a, b);
      assert (a + b)[1 + k..] == a[1 + k..] + b;
      PairedCut(a[1 + k..], b);
    }
  }

  lemma {:induction false} PairedSingle(m: Message)
    requires m.role != Tool && CallCount(m) == 0
    ensures Paired([m])
  {
  }

  lemma {:induction false} PairedTurn(m: Message, results: History)
    requires m.role == Assistant && Answers(m.toolCalls, results)
    ensures Paired([m] + results)
  {
    var ms := [m] + results;
    assert HeadOk(ms);
    assert ms[1 + CallCount(m)..] == [];
  }

  /** The part of a message that pairing depends on. */
  predicate SameShape(a: Message, b: Message) {
    a.role == b.role && a.toolCalls == b.toolCalls && a.toolName == b.toolName
  }

  predicate SameShapes(a: History, b: History) {
    |a| == |b| && forall i :: 0 <= i < |a| ==> SameShape(a[i], b[i])
  }

  lemma {:induction false} ShapePaired(a: History, b: History)
    requires SameShapes(a, b) && Paired(a)
    ensures Paired(b)
    decreases |a|
  {
    if a != [] {
      var k := CallCount(a[0]);
      assert forall i :: 0 <= i < |a| ==> SameShape(a[i], b[i]);
      assert HeadOk(b);
      ShapePaired(a[1 + k..], b[1 + k..]);
    }
  }
}
