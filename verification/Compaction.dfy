/** Compacting a conversation (internal/agent/compact.go): the turns found by the forward and the
    backward scans, and the layers built on them. */
module Compaction {
  import opened Options
  import opened Conversation
  import opened Decimal

  // ----- Turns -----

  datatype Turn = Turn(user: nat, assistant: nat)

  /** The last message at or before k that is not a tool result, or -1. */
  function WalkBack(ms: History, k: int): (j: int)
    requires -1 <= k < |ms|
    ensures -1 <= j <= k
    ensures forall i :: j < i <= k ==> ms[i].role == Tool
    ensures j >= 0 ==> ms[j].role != Tool
  {
    if k >= 0 && ms[k].role == Tool then WalkBack(ms, k - 1) else k
  }

  /** Message j is an assistant message that ends a turn: only tool results separate it from a user
      message. */
  predicate EndsTurn(ms: History, j: nat)
    requires j < |ms|
  {
    ms[j].role == Assistant && var i := WalkBack(ms, j - 1); i >= 0 && ms[i].role == User
  }

  /** The turn that ends with message n, if any. */
  function NewTurn(ms: History, n: nat): seq<Turn>
    requires n < |ms|
  {
    if EndsTurn(ms, n) then [Turn(WalkBack(ms, n - 1), n)] else []
  }

  /** The turns that end before message n, oldest first. */
  function Turns(ms: History, n: nat): seq<Turn>
    requires n <= |ms|
  {
    if n == 0 then []
    else Turns(ms, n - 1) + NewTurn(ms, n - 1)
  }

  /** A turn joins a user message to a later assistant message. */
  lemma {:induction false} TurnIs(ms: History, n: nat, k: nat)
    requires n <= |ms| && k < |Turns(ms, n)|
    ensures var t := Turns(ms, n)[k];
      t.user < t.assistant < n && ms[t.user].role == User && ms[t.assistant].role == Assistant
  {
    if k < |Turns(ms, n - 1)| { TurnIs(ms, n - 1, k); }
  }

  function AllTurns(ms: History): seq<Turn> {
    Turns(ms, |ms|)
  }

  lemma {:induction false} NoTurnBetween(ms: History, lo: nat, hi: nat)
    requires lo <= hi <= |ms| && forall j :: lo <= j < hi ==> ms[j].role != Assistant
    ensures Turns(ms, lo) == Turns(ms, hi)
    decreases hi - lo
  {
    if lo < hi { NoTurnBetween(ms, lo, hi - 1); }
  }

  lemma {:induction false} WalkBackStops(ms: History, i: int, k: int)
    requires -1 <= i <= k < |ms| && (i >= 0 ==> ms[i].role != Tool)
    requires forall j :: i < j <= k ==> ms[j].role == Tool
    ensures WalkBack(ms, k) == i
    decreases k
  {
    if i < k { WalkBackStops(ms, i, k - 1); }
  }

  function FirstNonTool(ms: History, i: nat): (j: nat)
    requires i <= |ms|
    ensures i <= j <= |ms|
    ensures forall k :: i <= k < j ==> ms[k].role == Tool
    ensures j < |ms| ==> ms[j].role != Tool
    decreases |ms| - i
  {
    if i < |ms| && ms[i].role == Tool then FirstNonTool(ms, i + 1) else i
  }

  /** No turn that began before i is still open at i. */
  predicate NoneOpen(ms: History, i: nat)
    requires i <= |ms|
  {
    var j := FirstNonTool(ms, i);
    j < |ms| ==> !EndsTurn(ms, j)
  }

  lemma {:induction false} NoneOpenAfter(ms: History, i: nat)
    requires i < |ms| && ms[i].role != User && ms[i].role != Tool
    ensures NoneOpen(ms, i + 1)
  {
    var j := FirstNonTool(ms, i + 1);
    if j < |ms| { WalkBackStops(ms, i, j - 1); }
  }

  lemma {:induction false} NoneOpenAtStart(ms: History)
    ensures NoneOpen(ms, 0)
  {
    var j := FirstNonTool(ms, 0);
    if j < |ms| { WalkBackStops(ms, -1, j - 1); }
  }

  /** The turns before message i are counted, and none is still open. */
  predicate Counted(ms: History, i: nat, turns: nat)
    requires i <= |ms|
  {
    turns == |Turns(ms, i)| && NoneOpen(ms, i)
  }

  lemma {:induction false} TurnForward(ms: History, i: nat, j: nat, turns: nat)
    requires i < j < |ms| && ms[i].role == User && ms[j].role == Assistant && FirstNonTool(ms, i + 1) == j
    requires Counted(ms, i, turns)
    ensures Counted(ms, j + 1, turns + 1)
  {
    WalkBackStops(ms, i, j - 1);
    NoTurnBetween(ms, i, j);
    NoneOpenAfter(ms, j);
  }

  /** A message that begins no turn is skipped. */
  lemma {:induction false} SkipMessage(ms: History, i: nat, turns: nat)
    requires i < |ms| && Counted(ms, i, turns)
    requires var j := FirstNonTool(ms, i + 1); !(ms[i].role == User && j < |ms| && ms[j].role == Assistant)
    ensures Counted(ms, i + 1, turns)
  {
    assert !EndsTurn(ms, i);
    if ms[i].role != User && ms[i].role != Tool { NoneOpenAfter(ms, i); }
  }

  /** countTurns: the forward scan. */
  method CountTurns(messages: History) returns (turns: nat)
    ensures turns == |AllTurns(messages)|
  {
    turns := 0;
    var i := 0;
    NoneOpenAtStart(messages);
    while i < |messages|
      invariant 0 <= i <= |messages|
      invariant Counted(messages, i, turns)
    {
      if messages[i].role == System {
        SkipMessage(messages, i, turns);
        i := i + 1;
        continue;
      }
      if messages[i].role == User {
        var j := i + 1;
        while j < |messages| && messages[j].role == Tool
          invariant i < j <= |messages|
          invariant FirstNonTool(messages, i + 1) == FirstNonTool(messages, j)
        {
          j := j + 1;
        }
        if j < |messages| && messages[j].role == Assistant {
          TurnForward(messages, i, j, turns);
          turns := turns + 1;
          i := j + 1;
          continue;
        }
      }
      SkipMessage(messages, i, turns);
      i := i + 1;
    }
  }

  lemma {:induction false} NoTurnAt(ms: History, i: nat, pairs: seq<Turn>)
    requires i < |ms| && !EndsTurn(ms, i)
    ensures Turns(ms, i + 1) + pairs == Turns(ms, i) + pairs
  {
  }

  lemma {:induction false} TurnFound(ms: History, j: nat, i: nat, pairs: seq<Turn>)
    requires j < i < |ms| && ms[i].role == Assistant && ms[j].role == User && WalkBack(ms, i - 1) == j
    ensures Turns(ms, i + 1) + pairs == Turns(ms, j) + ([Turn(j, i)] + pairs)
  {
    NoTurnBetween(ms, j, i);
  }

  /** The backward scan of findSplitIndex and emergencyTruncate: the newest turns, at most minTurns. */
  method LastTurns(messages: History, minTurns: int) returns (pairs: seq<Turn>)
    ensures var all := AllTurns(messages);
            && |pairs| == (if minTurns <= 0 then 0 else if minTurns <= |all| then minTurns else |all|)
            && pairs == all[|all| - |pairs|..]
  {
    pairs := [];
    var i := |messages| - 1;
    ghost var all := AllTurns(messages);
    while i >= 0 && |pairs| < minTurns
      invariant -1 <= i < |messages|
      invariant all == Turns(messages, i + 1) + pairs
      invariant |pairs| <= minTurns || pairs == []
    {
      if messages[i].role == Assistant {
        var j := i - 1;
        while j >= 0 && messages[j].role == Tool
          invariant -1 <= j < i
          invariant forall k :: j < k < i ==> messages[k].role == Tool
        {
          j := j - 1;
        }
        WalkBackStops(messages, j, i - 1);
        if j >= 0 && messages[j].role == User {
          TurnFound(messages, j, i, pairs);
          pairs := [Turn(j, i)] + pairs;
          i := j - 1;
          continue;
        }
      }
      NoTurnAt(messages, i, pairs);
      i := i - 1;
    }
  }

  /** Where the last minTurns turns begin. */
  function SplitIndex(ms: History, minTurns: int): (s: nat)
    ensures s <= |ms|
    ensures 1 <= minTurns <= |AllTurns(ms)| ==> s < |ms| && ms[s].role == User
  {
    var all := AllTurns(ms);
    if minTurns <= 0 || all == [] then 0
    else
      var k := if minTurns <= |all| then |all| - minTurns else 0;
      TurnIs(ms, |ms|, k);
      all[k].user
  }

  method FindSplitIndex(messages: History, minTurns: int) returns (s: nat)
    ensures s == SplitIndex(messages, minTurns)
  {
    var pairs := LastTurns(messages, minTurns);
    if |pairs| == 0 {
      return 0;
    }
    return pairs[0].user;
  }

  // ----- Cutting and joining histories -----

  function Shift(ts: seq<Turn>, d: nat): (r: seq<Turn>)
    ensures |r| == |ts|
  {
    seq(|ts|, i requires 0 <= i < |ts| => Turn(ts[i].user + d, ts[i].assistant + d))
  }

  /** No turn reaches over the cut: it falls before a user or system message, or after a system
      message. */
  predicate CleanCut(a: History, b: History) {
    (b != [] ==> b[0].role == User || b[0].role == System) || (a != [] && a[|a| - 1].role == System)
  }

  lemma {:induction false} WalkBackInTail(a: History, b: History, k: int)
    requires -1 <= k < |b|
    ensures var i, j := WalkBack(a + b, |a| + k), WalkBack(b, k);
            if j >= 0 then i == |a| + j else i < |a|
    decreases k + 1
  {
    if k >= 0 { assert (a + b)[|a| + k] == b[k]; }
    if k >= 0 && b[k].role == Tool { WalkBackInTail(a, b, k - 1); }
  }

  lemma {:induction false} EndsTurnInTail(a: History, b: History, j: nat)
    requires j < |b| && CleanCut(a, b)
    ensures EndsTurn(a + b, |a| + j) == EndsTurn(b, j)
  {
    assert (a + b)[|a| + j] == b[j];
    WalkBackInTail(a, b, j - 1);
    var i := WalkBack(b, j - 1);
    if i >= 0 {
      assert (a + b)[|a| + i] == b[i];
    } else if b[j].role == Assistant {
      assert b[0].role == Tool || b[0].role == Assistant;
      var n := |a| - 1;
      assert (a + b)[n] == a[n];
      assert forall k :: n < k <= |a| + j - 1 ==> (a + b)[k] == b[k - |a|];
      WalkBackStops(a + b, n, |a| + j - 1);
    }
  }

  lemma {:induction false} TurnsOfHead(a: History, whole: History, n: nat)
    requires n <= |a| && a <= whole
    ensures Turns(whole, n) == Turns(a, n)
  {
    if n > 0 {
      TurnsOfHead(a, whole, n - 1);
      WalkBackOfHead(a, whole, n - 2);
    }
  }

  lemma {:induction false} WalkBackOfHead(a: History, whole: History, k: int)
    requires -1 <= k < |a| && a <= whole
    ensures WalkBack(whole, k) == WalkBack(a, k)
    decreases k + 1
  {
    if k >= 0 && a[k].role == Tool { WalkBackOfHead(a, whole, k - 1); }
  }

  lemma {:induction false} NewTurnInTail(a: History, b: History, whole: History, n: nat)
    requires n < |b| && CleanCut(a, b) && whole == a + b
    ensures NewTurn(whole, |a| + n) == Shift(NewTurn(b, n), |a|)
  {
    EndsTurnInTail(a, b, n);
    if EndsTurn(b, n) { WalkBackInTail(a, b, n - 1); }
  }

  lemma {:induction false} NewTurnsInTail(a: History, b: History, whole: History)
    requires CleanCut(a, b) && whole == a + b
    ensures forall m :: 0 <= m < |b| ==> NewTurn(whole, |a| + m) == Shift(NewTurn(b, m), |a|)
  {
    forall m | 0 <= m < |b| ensures NewTurn(whole, |a| + m) == Shift(NewTurn(b, m), |a|) {
      NewTurnInTail(a, b, whole, m);
    }
  }

  lemma {:induction false} ShiftedAppend(before: seq<Turn>, ts: seq<Turn>, more: seq<Turn>, d: nat)
    ensures (before + Shift(ts, d)) + Shift(more, d) == before + Shift(ts + more, d)
  {
    assert Shift(ts + more, d) == Shift(ts, d) + Shift(more, d);
  }

  /** The turns before message n of b, found in the whole history. */
  ghost predicate FoundInWhole(whole: History, b: History, d: nat, n: nat, before: seq<Turn>)
    requires n <= |b| && |whole| == d + |b|
  {
    Turns(whole, d + n) == before + Shift(Turns(b, n), d)
  }

  lemma {:induction false} OneMoreTurn(whole: History, b: History, d: nat, n: nat, before: seq<Turn>)
    requires n < |b| && |whole| == d + |b| && NewTurn(whole, d + n) == Shift(NewTurn(b, n), d)
    requires FoundInWhole(whole, b, d, n, before)
    ensures FoundInWhole(whole, b, d, n + 1, before)
  {
    ShiftedAppend(before, Turns(b, n), NewTurn(b, n), d);
  }

  lemma {:induction false} TurnsShifted(whole: History, b: History, d: nat, n: nat, before: seq<Turn>)
    requires n <= |b| && |whole| == d + |b| && FoundInWhole(whole, b, d, 0, before)
    requires forall m :: 0 <= m < n ==> NewTurn(whole, d + m) == Shift(NewTurn(b, m), d)
    ensures FoundInWhole(whole, b, d, n, before)
    decreases n
  {
    if n > 0 {
      TurnsShifted(whole, b, d, n - 1, before);
      OneMoreTurn(whole, b, d, n - 1, before);
    }
  }

  /** Turns before and after a clean cut. */
  lemma {:induction false} TurnsConcat(a: History, b: History, whole: History)
    requires CleanCut(a, b) && whole == a + b
    ensures AllTurns(whole) == AllTurns(a) + Shift(AllTurns(b), |a|)
  {
    var before := AllTurns(a);
    TurnsOfHead(a, whole, |a|);
    assert before + Shift([], |a|) == before;
    NewTurnsInTail(a, b, whole);
    TurnsShifted(whole, b, |a|, |b|, before);
  }

  predicate AllSystem(ms: History) {
    forall i :: 0 <= i < |ms| ==> ms[i].role == System
  }

  lemma {:induction false} NoTurnsInSystem(ms: History)
    requires AllSystem(ms)
    ensures AllTurns(ms) == []
  {
    NoTurnBetween(ms, 0, |ms|);
  }

  /** The leading system messages. */
  function SystemCount(ms: History): (n: nat)
    ensures n <= |ms| && AllSystem(ms[..n]) && (n < |ms| ==> ms[n].role != System)
  {
    if ms != [] && ms[0].role == System then
      var n := SystemCount(ms[1..]);
      assert ms[..n + 1] == [ms[0]] + ms[1..][..n];
      n + 1
    else 0
  }

  // ----- What the split keeps -----

  lemma {:induction false} RankOfTurn(ms: History, n: nat, k: nat)
    requires n <= |ms| && k < |Turns(ms, n)|
    ensures var t := Turns(ms, n)[k]; t.assistant < n && |Turns(ms, t.assistant)| == k
    ensures var t := Turns(ms, n)[k]; EndsTurn(ms, t.assistant) && t.user == WalkBack(ms, t.assistant - 1)
    decreases n
  {
    if k < |Turns(ms, n - 1)| { RankOfTurn(ms, n - 1, k); }
  }

  /** As many turns end before a turn as come before it in the list. */
  lemma {:induction false} TurnsBefore(ms: History, k: nat)
    requires k < |AllTurns(ms)|
    ensures var s := AllTurns(ms)[k].user; s < |ms| && ms[s].role == User && |Turns(ms, s)| == k
  {
    var t := AllTurns(ms)[k];
    RankOfTurn(ms, |ms|, k);
    assert t in AllTurns(ms);
    NoTurnBetween(ms, t.user, t.assistant);
  }

  /** The suffix that starts at the split holds exactly minTurns turns, the first at its start. */
  lemma {:induction false} SplitKeeps(ms: History, minTurns: int)
    requires 1 <= minTurns <= |AllTurns(ms)|
    ensures var kept := AllTurns(ms[SplitIndex(ms, minTurns)..]);
            |kept| == minTurns && kept[0].user == 0
  {
    var k, s := |AllTurns(ms)| - minTurns, SplitIndex(ms, minTurns);
    TurnsBefore(ms, k);
    CutTurns(ms, s);
    assert AllTurns(ms)[k] == Shift(AllTurns(ms[s..]), s)[0];
  }

  lemma {:induction false} CutTurns(ms: History, s: nat)
    requires s < |ms| && ms[s].role == User
    ensures AllTurns(ms) == Turns(ms, s) + Shift(AllTurns(ms[s..]), s)
  {
    var a, b := ms[..s], ms[s..];
    assert b[0] == ms[s];
    TurnsConcat(a, b, ms);
    TurnsOfHead(a, ms, s);
  }

  lemma {:induction false} SameShapesTurns(a: History, b: History, n: nat)
    requires SameShapes(a, b) && n <= |a|
    ensures Turns(a, n) == Turns(b, n)
  {
    if n > 0 {
      SameShapesTurns(a, b, n - 1);
      SameShapesWalk(a, b, n - 2);
      assert SameShape(a[n - 1], b[n - 1]);
      var i := WalkBack(a, n - 2);
      if i >= 0 { assert SameShape(a[i], b[i]); }
    }
  }

  lemma {:induction false} SameShapesWalk(a: History, b: History, k: int)
    requires SameShapes(a, b) && -1 <= k < |a|
    ensures WalkBack(a, k) == WalkBack(b, k)
    decreases k + 1
  {
    if k >= 0 {
      assert SameShape(a[k], b[k]);
      if a[k].role == Tool { SameShapesWalk(a, b, k - 1); }
    }
  }

  // ----- Layers 2 and 3: lighter messages -----

  const COLLAPSE_THRESHOLD: nat := 500

  function Collapsed(m: Message): (r: Message)
    ensures SameShape(m, r)
  {
    if m.role == Tool && |m.content| > COLLAPSE_THRESHOLD then
      m.(content := "[Tool result: " + (if m.toolName == "" then "unknown" else m.toolName) + ", "
                    + DecimalString(|m.content|) + " chars, truncated for compaction]")
    else m
  }

  /** collapseToolResults. */
  method CollapseToolResults(messages: History) returns (out: History)
    ensures out == seq(|messages|, i requires 0 <= i < |messages| => Collapsed(messages[i]))
  {
    out := messages;
    for i := 0 to |messages|
      invariant |out| == |messages|
      invariant forall k :: 0 <= k < |messages| ==> out[k] == if k < i then Collapsed(messages[k]) else messages[k]
    {
      var msg := messages[i];
      if msg.role != Tool {
        continue;
      }
      if |msg.content| > COLLAPSE_THRESHOLD {
        var name := msg.toolName;
        if name == "" {
          name := "unknown";
        }
        out := out[i := msg.(content := "[Tool result: " + name + ", " + DecimalString(|msg.content|)
                                        + " chars, truncated for compaction]")];
      }
    }
  }

  const OPEN := "<thinking>"
  const CLOSE := "</thinking>"

  function Find(s: string, pat: string, from: nat): (r: Option<nat>)
    requires from <= |s|
    ensures r.Some? ==> from <= r.value <= r.value + |pat| <= |s| && s[r.value..r.value + |pat|] == pat
    decreases |s| - from
  {
    if from + |pat| <= |s| && s[from..from + |pat|] == pat then Some(from)
    else if from == |s| then None
    else Find(s, pat, from + 1)
  }

  /** The text without its thinking blocks, each from an opening mark to the next closing one. */
  function WithoutThinking(s: string): string
    decreases |s|
  {
    var open := Find(s, OPEN, 0);
    if open.None? then s
    else
      var close := Find(s, CLOSE, open.value + |OPEN|);
      if close.None? then s
      else s[..open.value] + WithoutThinking(s[close.value + |CLOSE|..])
  }

  predicate StandsAt(s: string, pat: string, i: nat) {
    i + |pat| <= |s| && s[i..i + |pat|] == pat
  }

  lemma {:induction false} FoundFirst(s: string, pat: string, from: nat)
    requires from <= |s|
    ensures Find(s, pat, from).Some? ==> StandsAt(s, pat, Find(s, pat, from).value)
    ensures forall i :: from <= i && StandsAt(s, pat, i) ==> Find(s, pat, from).Some? && Find(s, pat, from).value <= i
    decreases |s| - from
  {
    if !StandsAt(s, pat, from) && from < |s| { FoundFirst(s, pat, from + 1); }
  }

  /** An opening mark with a closing one behind it. */
  ghost predicate HasMarks(s: string, open: string, close: string) {
    exists i: nat, j: nat :: StandsAt(s, open, i) && StandsAt(s, close, j) && i + |open| <= j
  }

  ghost predicate HasBlock(s: string) {
    HasMarks(s, OPEN, CLOSE)
  }

  lemma {:induction false} MarksFound(s: string, open: string, close: string)
    ensures HasMarks(s, open, close) <==>
            Find(s, open, 0).Some? && Find(s, close, Find(s, open, 0).value + |open|).Some?
  {
    FoundFirst(s, open, 0);
    if Find(s, open, 0).Some? {
      FoundFirst(s, close, Find(s, open, 0).value + |open|);
    }
  }

  /** The first whole block, if any: where it begins and what follows it. */
  function FirstBlock(s: string): (r: Option<(nat, nat)>)
    ensures r.Some? ==> r.value.0 < r.value.1 <= |s|
  {
    var open := Find(s, OPEN, 0);
    if open.None? then None
    else
      var close := Find(s, CLOSE, open.value + |OPEN|);
      if close.None? then None else Some((open.value, close.value + |CLOSE|))
  }

  lemma {:induction false} WithoutFirst(s: string)
    ensures WithoutThinking(s) ==
            match FirstBlock(s) case None => s case Some(b) => s[..b.0] + WithoutThinking(s[b.1..])
  {
  }

  lemma {:induction false} WithoutIsShorter(s: string)
    ensures |WithoutThinking(s)| <= |s|
    ensures FirstBlock(s).Some? ==> |WithoutThinking(s)| < |s|
    decreases |s|
  {
    WithoutFirst(s);
    if FirstBlock(s).Some? { WithoutIsShorter(s[FirstBlock(s).value.1..]); }
  }

  /** A text is left as it is exactly when it holds no whole block. */
  lemma {:induction false} BlocksAreRemoved(s: string)
    ensures WithoutThinking(s) == s <==> !HasBlock(s)
  {
    MarksFound(s, OPEN, CLOSE);
    WithoutFirst(s);
    WithoutIsShorter(s);
  }

  function Stripped(m: Message): (r: Message)
    ensures SameShape(m, r)
  {
    m.(thinking := "", content := WithoutThinking(m.content))
  }

  /** The positions of the assistant messages before n. */
  function AssistantPositions(ms: History, n: nat): (r: seq<nat>)
    requires n <= |ms|
    ensures forall i :: i in r ==> i < n
  {
    if n == 0 then []
    else AssistantPositions(ms, n - 1) + (if ms[n - 1].role == Assistant then [n - 1] else [])
  }

  /** The messages from here on keep their thinking: the last two assistant messages, when there are
      more than two. */
  function PreserveFrom(ms: History): (n: nat)
    ensures n <= |ms|
  {
    var at := AssistantPositions(ms, |ms|);
    if |at| > 2 then assert at[|at| - 2] in at; at[|at| - 2] else 0
  }

  /** stripThinkingBlocks. */
  method StripThinkingBlocks(messages: History) returns (out: History)
    ensures out == seq(|messages|, i requires 0 <= i < |messages| =>
                         if i < PreserveFrom(messages) then Stripped(messages[i]) else messages[i])
  {
    var assistantIndices: seq<nat> := [];
    for i := 0 to |messages|
      invariant assistantIndices == AssistantPositions(messages, i)
    {
      if messages[i].role == Assistant {
        assistantIndices := assistantIndices + [i];
      }
    }
    var preserveFrom := 0;
    if |assistantIndices| > 2 {
      preserveFrom := assistantIndices[|assistantIndices| - 2];
    }
    out := messages;
    for i := 0 to |messages|
      invariant |out| == |messages|
      invariant forall k :: 0 <= k < |messages| ==>
                  out[k] == if k < i && k < preserveFrom then Stripped(messages[k]) else messages[k]
    {
      if i >= preserveFrom {
        continue;
      }
      if out[i].thinking != "" {
        out := out[i := out[i].(thinking := "")];
      }
      NothingToStrip(out[i].content);
      if Find(out[i].content, OPEN, 0).Some? {
        out := out[i := out[i].(content := WithoutThinking(out[i].content))];
      }
    }
  }

  lemma {:induction false} NothingToStrip(s: string)
    ensures Find(s, OPEN, 0).None? ==> WithoutThinking(s) == s
  {
  }

  /** The history after layers 3 and 2. */
  function Processed(ms: History): (r: History)
    ensures SameShapes(ms, r)
  {
    seq(|ms|, i requires 0 <= i < |ms| => Collapsed(if i < PreserveFrom(ms) then Stripped(ms[i]) else ms[i]))
  }

  // ----- Layers 1 and 4 -----

  function SummaryMessage(summary: string): Message {
    Message(System, "[Summary of earlier conversation]\n\n" + summary, "", [], "")
  }

  /** The leading system messages, a summary of what is cut, and the newest turns. */
  function Summarized(ms: History, minTurns: int, summary: string): History {
    var p := Processed(ms);
    p[..SystemCount(ms)] + [SummaryMessage(summary)] + p[SplitIndex(ms, minTurns)..]
  }

  /** The leading system messages and the newest turns; everything, when there is no turn. */
  function Truncated(ms: History, minTurns: int): History {
    if minTurns <= 0 || AllTurns(ms) == [] then ms
    else ms[..SystemCount(ms)] + ms[SplitIndex(ms, minTurns)..]
  }

  lemma {:induction false} TurnsBehindSystem(sys: History, rest: History, whole: History)
    requires AllSystem(sys) && CleanCut(sys, rest) && whole == sys + rest
    ensures AllTurns(whole) == Shift(AllTurns(rest), |sys|)
  {
    TurnsConcat(sys, rest, whole);
    NoTurnsInSystem(sys);
    var shifted := Shift(AllTurns(rest), |sys|);
    assert [] + shifted == shifted;
  }

  /** The turns found after the leading system messages are the turns of the whole history. */
  lemma {:induction false} TurnsAfterSystem(ms: History)
    ensures AllTurns(ms) == Shift(AllTurns(ms[SystemCount(ms)..]), SystemCount(ms))
  {
    var c := SystemCount(ms);
    var sys, rest := ms[..c], ms[c..];
    if c > 0 {
      TurnsBehindSystem(sys, rest, ms);
    } else {
      assert rest == ms;
      assert Shift(AllTurns(rest), 0) == AllTurns(rest);
    }
  }

  /** The newest turns of a list, and where they stand in the shifted list. */
  lemma {:induction false} NewestShifted(all: seq<Turn>, d: nat, minTurns: int, pairs: seq<Turn>)
    requires |pairs| == (if minTurns <= 0 then 0 else if minTurns <= |all| then minTurns else |all|)
    requires pairs == all[|all| - |pairs|..]
    ensures pairs == [] <==> minTurns <= 0 || Shift(all, d) == []
    ensures pairs != [] ==> pairs[0] in all
    ensures pairs != [] ==> Shift(all, d)[if minTurns <= |all| then |all| - minTurns else 0].user == d + pairs[0].user
  {
    if pairs != [] { assert pairs[0] == all[|all| - |pairs|]; }
  }

  lemma {:induction false} SplitFromPairs(ms: History, minTurns: int, rest: History, pairs: seq<Turn>)
    requires rest == ms[SystemCount(ms)..]
    requires var all := AllTurns(rest);
             && |pairs| == (if minTurns <= 0 then 0 else if minTurns <= |all| then minTurns else |all|)
             && pairs == all[|all| - |pairs|..]
    ensures pairs == [] <==> minTurns <= 0 || AllTurns(ms) == []
    ensures pairs != [] ==> pairs[0].user < |rest| && SplitIndex(ms, minTurns) == SystemCount(ms) + pairs[0].user
  {
    TurnsAfterSystem(ms);
    NewestShifted(AllTurns(rest), SystemCount(ms), minTurns, pairs);
    if pairs != [] { TurnIs(rest, |rest|, |AllTurns(rest)| - |pairs|); }
  }

  lemma {:induction false} TruncatedFromPairs(ms: History, minTurns: int, c: nat, user: nat)
    requires c == SystemCount(ms) && minTurns > 0 && AllTurns(ms) != []
    requires c + user <= |ms| && SplitIndex(ms, minTurns) == c + user
    ensures Truncated(ms, minTurns) == ms[..c] + ms[c..][user..]
  {
    assert ms[c..][user..] == ms[c + user..];
  }

  /** emergencyTruncate. */
  method EmergencyTruncate(messages: History, minTurns: int) returns (out: History)
    ensures out == Truncated(messages, minTurns)
  {
    var start := LeadingSystem(messages);
    var sysMsgs, rest := messages[..start], messages[start..];
    var pairs := LastTurns(rest, minTurns);
    SplitFromPairs(messages, minTurns, rest, pairs);
    if |pairs| == 0 {
      assert sysMsgs + rest == messages;
      return sysMsgs + rest;
    }
    var keepFrom := pairs[0].user;
    TruncatedFromPairs(messages, minTurns, start, keepFrom);
    return sysMsgs + rest[keepFrom..];
  }

  method LeadingSystem(messages: History) returns (n: nat)
    ensures n == SystemCount(messages)
  {
    n := 0;
    assert messages[0..] == messages;
    while n < |messages| && messages[n].role == System
      invariant 0 <= n <= |messages| && SystemCount(messages) == n + SystemCount(messages[n..])
    {
      assert messages[n..][1..] == messages[n + 1..];
      n := n + 1;
    }
  }

  /** Too few turns, or nothing but system messages before the newest ones. */
  predicate Skips(ms: History, minTurns: int) {
    |AllTurns(ms)| < minTurns || SplitIndex(ms, minTurns) <= SystemCount(ms)
  }

  datatype CompactionResult = Skipped | Compacted(layer: nat, messages: History)

  /** What Compact yields when the summary request answers with `summary`, or fails. */
  function CompactTo(ms: History, minTurns: int, summary: Option<string>): CompactionResult {
    if Skips(ms, minTurns) then Skipped
    else if summary.Some? && summary.value != "" then Compacted(1, Summarized(ms, minTurns, summary.value))
    else Compacted(4, Truncated(ms, minTurns))
  }

  /** Compact. */
  method Compact(messages: History, minTurns: int, summary: Option<string>) returns (result: CompactionResult)
    ensures result == CompactTo(messages, minTurns, summary)
  {
    var count := CountTurns(messages);
    if count < minTurns {
      return Skipped;
    }
    var stripped := StripThinkingBlocks(messages);
    var processed := CollapseToolResults(stripped);
    assert processed == Processed(messages);
    SameShapesSplit(messages, processed, minTurns);
    var splitIdx := FindSplitIndex(processed, minTurns);
    var toSummarize, toKeep := processed[..splitIdx], processed[splitIdx..];
    var nonSysStart := LeadingSystem(toSummarize);
    LeadingSystemOfPrefix(messages, toSummarize);
    if nonSysStart == |toSummarize| {
      return Skipped;
    }
    assert toSummarize[..nonSysStart] == processed[..nonSysStart];
    if summary.Some? && summary.value != "" {
      return Compacted(1, toSummarize[..nonSysStart] + [SummaryMessage(summary.value)] + toKeep);
    }
    var truncated := EmergencyTruncate(messages, minTurns);
    return Compacted(4, truncated);
  }

  lemma {:induction false} SameShapesSplit(a: History, b: History, minTurns: int)
    requires SameShapes(a, b)
    ensures SplitIndex(a, minTurns) == SplitIndex(b, minTurns)
    ensures forall i :: 0 <= i < |a| ==> a[i].role == b[i].role
  {
    SameShapesTurns(a, b, |a|);
    forall i | 0 <= i < |a| ensures a[i].role == b[i].role { assert SameShape(a[i], b[i]); }
  }

  lemma {:induction false} LeadingSystemOfPrefix(ms: History, p: History)
    requires |p| <= |ms| && forall i :: 0 <= i < |p| ==> p[i].role == ms[i].role
    ensures SystemCount(p) == if SystemCount(ms) <= |p| then SystemCount(ms) else |p|
  {
    if p != [] {
      forall i | 0 <= i < |p[1..]| ensures p[1..][i].role == ms[1..][i].role {
        assert p[i + 1].role == ms[i + 1].role;
      }
      LeadingSystemOfPrefix(ms[1..], p[1..]);
    }
  }

  // ----- Theorems -----

  /** A list of system messages before the newest turns: exactly those turns, and nothing left to
      compact. */
  lemma {:induction false} SystemThenTurns(sys: History, kept: History, minTurns: int)
    requires AllSystem(sys) && 1 <= minTurns == |AllTurns(kept)| && AllTurns(kept)[0].user == 0
    ensures |AllTurns(sys + kept)| == minTurns && Skips(sys + kept, minTurns)
    ensures SystemCount(sys + kept) == |sys|
  {
    TurnIs(kept, |kept|, 0);
    TurnsBehindSystem(sys, kept, sys + kept);
    var all := AllTurns(sys + kept);
    assert all[0].user == |sys|;
    SystemCountIs(sys, kept);
  }

  lemma {:induction false} SystemCountIs(sys: History, kept: History)
    requires AllSystem(sys) && kept != [] && kept[0].role == User
    ensures SystemCount(sys + kept) == |sys|
  {
    if sys == [] {
      assert sys + kept == kept;
    } else {
      assert (sys + kept)[1..] == sys[1..] + kept;
      SystemCountIs(sys[1..], kept);
    }
  }

  /** What layer 1 yields, cut at the start of the kept turns. */
  lemma {:induction false} SummarizedParts(ms: History, minTurns: int, summary: string)
    requires 1 <= minTurns <= |AllTurns(ms)|
    ensures var p, s := Processed(ms), SplitIndex(ms, minTurns);
            var sys := p[..SystemCount(ms)] + [SummaryMessage(summary)];
            && AllSystem(sys) && Summarized(ms, minTurns, summary) == sys + p[s..]
            && SameShapes(ms[s..], p[s..]) && AllTurns(p[s..]) == AllTurns(ms[s..])
  {
    var c, s := SystemCount(ms), SplitIndex(ms, minTurns);
    ShapesOfParts(ms, Processed(ms), c, s);
  }

  lemma {:induction false} ShapesOfParts(ms: History, p: History, c: nat, s: nat)
    requires SameShapes(ms, p) && c <= |ms| && s <= |ms| && AllSystem(ms[..c])
    ensures AllSystem(p[..c]) && SameShapes(ms[s..], p[s..]) && AllTurns(p[s..]) == AllTurns(ms[s..])
  {
    assert SameShapes(ms[s..], p[s..]) && SameShapes(ms[..c], p[..c]);
    SameShapesTurns(ms[s..], p[s..], |ms| - s);
    SystemShapes(ms[..c], p[..c]);
  }

  lemma {:induction false} SummarizedTurns(ms: History, minTurns: int, summary: string)
    requires 1 <= minTurns <= |AllTurns(ms)|
    ensures var out := Summarized(ms, minTurns, summary);
            |AllTurns(out)| == minTurns && Skips(out, minTurns)
  {
    SplitKeeps(ms, minTurns);
    SummarizedParts(ms, minTurns, summary);
    var p := Processed(ms);
    SystemThenTurns(p[..SystemCount(ms)] + [SummaryMessage(summary)], p[SplitIndex(ms, minTurns)..], minTurns);
  }

  lemma {:induction false} SummarizedKeeps(ms: History, minTurns: int, summary: string)
    requires SystemCount(ms) < SplitIndex(ms, minTurns)
    ensures var out := Summarized(ms, minTurns, summary);
            SystemCount(ms) <= |out| <= |ms| && SameShapes(ms[..SystemCount(ms)], out[..SystemCount(ms)])
  {
    var p, c := Processed(ms), SystemCount(ms);
    assert Summarized(ms, minTurns, summary)[..c] == p[..c];
    assert SameShapes(ms[..c], p[..c]);
  }

  lemma {:induction false} TruncatedKeeps(ms: History, minTurns: int)
    requires 1 <= minTurns <= |AllTurns(ms)|
    ensures var out := Truncated(ms, minTurns);
            && SystemCount(ms) <= |out| <= |ms|
            && ms[..SystemCount(ms)] == out[..SystemCount(ms)]
            && |AllTurns(out)| == minTurns && Skips(out, minTurns)
  {
    var c, s := SystemCount(ms), SplitIndex(ms, minTurns);
    SplitKeeps(ms, minTurns);
    SystemThenTurns(ms[..c], ms[s..], minTurns);
    SystemBeforeSplit(ms, minTurns);
  }

  lemma {:induction false} SystemBeforeSplit(ms: History, minTurns: int)
    requires 1 <= minTurns <= |AllTurns(ms)|
    ensures SystemCount(ms) <= SplitIndex(ms, minTurns)
  {
    var c, s := SystemCount(ms), SplitIndex(ms, minTurns);
    assert ms[s].role == User;
    assert forall i :: 0 <= i < c ==> ms[i] == ms[..c][i] && ms[i].role == System;
  }

  /** Nothing that looks like thinking. */
  ghost predicate Unthinking(m: Message) {
    m.thinking == "" && !HasBlock(m.content)
  }

  /** What layers 3 and 2 leave alone, tool results aside. */
  lemma {:induction false} ProcessedSame(ms: History, i: nat)
    requires i < |ms|
    ensures ms[i].role != Tool ==> (Processed(ms)[i] == ms[i] <==> i >= PreserveFrom(ms) || Unthinking(ms[i]))
    ensures (i >= PreserveFrom(ms) || Unthinking(ms[i])) && |ms[i].content| <= COLLAPSE_THRESHOLD ==>
      Processed(ms)[i] == ms[i]
  {
    BlocksAreRemoved(ms[i].content);
  }

  /** With more than two assistant messages, the preserved ones begin behind the leading system messages. */
  lemma {:induction false} PreservedBehindSystem(ms: History)
    requires |AssistantPositions(ms, |ms|)| > 2
    ensures SystemCount(ms) <= PreserveFrom(ms)
  {
    var at, c := AssistantPositions(ms, |ms|), SystemCount(ms);
    var n := PreserveFrom(ms);
    assert n in at;
    AssistantsAre(ms, |ms|);
    assert forall i :: 0 <= i < c ==> ms[i] == ms[..c][i] && ms[i].role == System;
  }

  lemma {:induction false} AssistantsAre(ms: History, n: nat)
    requires n <= |ms|
    ensures forall i :: i in AssistantPositions(ms, n) ==> i < |ms| && ms[i].role == Assistant
  {
    if n > 0 { AssistantsAre(ms, n - 1); }
  }

  /** Layers 3 and 2 touch none of the leading system messages: there are at most two assistant messages,
      or none of the system messages holds thinking. */
  ghost predicate SystemUntouched(ms: History) {
    || |AssistantPositions(ms, |ms|)| <= 2
    || forall k :: 0 <= k < SystemCount(ms) ==> Unthinking(ms[k])
  }

  lemma {:induction false} ProcessedSystem(ms: History)
    ensures Processed(ms)[..SystemCount(ms)] == ms[..SystemCount(ms)] <==> SystemUntouched(ms)
  {
    var c, p := SystemCount(ms), Processed(ms);
    if |AssistantPositions(ms, |ms|)| > 2 { PreservedBehindSystem(ms); }
    forall k | 0 <= k < c ensures p[k] == ms[k] <==> k >= PreserveFrom(ms) || Unthinking(ms[k]) {
      assert ms[k] == ms[..c][k];
      ProcessedSame(ms, k);
    }
    if p[..c] == ms[..c] {
      forall k | 0 <= k < c ensures p[k] == ms[k] { assert p[..c][k] == ms[..c][k]; }
    }
  }

  /** The leading system messages are kept word for word exactly when the summary failed, or layers 3 and 2
      leave them alone. */
  lemma {:induction false} SystemMessagesKept(ms: History, minTurns: int, summary: Option<string>)
    requires CompactTo(ms, minTurns, summary).Compacted?
    ensures var c, result := SystemCount(ms), CompactTo(ms, minTurns, summary);
      && c <= |result.messages|
      && (result.messages[..c] == ms[..c] <==> result.layer == 4 || SystemUntouched(ms))
  {
    var c := SystemCount(ms);
    if CompactTo(ms, minTurns, summary).layer == 1 {
      assert Summarized(ms, minTurns, summary.value)[..c] == Processed(ms)[..c];
      ProcessedSystem(ms);
    } else {
      TruncatedKeeps(ms, minTurns);
    }
  }

  /** Three plain turns. */
  function ThreeTurns(sys: Message, u: Message, a: Message): History {
    [sys, u, a, u, a, u, a]
  }

  lemma {:induction false} ThreeTurnsAre(sys: Message, u: Message, a: Message, ms: History)
    requires sys.role == System && u.role == User && a.role == Assistant && ms == ThreeTurns(sys, u, a)
    ensures SystemCount(ms) == 1 && |AllTurns(ms)| == 3 && SplitIndex(ms, 1) == 5
    ensures |AssistantPositions(ms, |ms|)| == 3
  {
    assert SystemCount(ms[1..]) == 0;
    assert NewTurn(ms, 0) == [] == NewTurn(ms, 1) && NewTurn(ms, 2) == [Turn(1, 2)];
    assert NewTurn(ms, 3) == [] && NewTurn(ms, 4) == [Turn(3, 4)];
    assert NewTurn(ms, 5) == [] && NewTurn(ms, 6) == [Turn(5, 6)];
    assert Turns(ms, 1) == [];
    assert Turns(ms, 3) == [Turn(1, 2)];
    assert Turns(ms, 5) == [Turn(1, 2), Turn(3, 4)];
    assert Turns(ms, 7) == [Turn(1, 2), Turn(3, 4), Turn(5, 6)];
    assert AssistantPositions(ms, 1) == [];
    assert AssistantPositions(ms, 3) == [2];
    assert AssistantPositions(ms, 5) == [2, 4];
  }

  lemma {:induction false} ThinkingIsAltered(ms: History, summary: string)
    requires SystemCount(ms) == 1 && |AssistantPositions(ms, |ms|)| > 2 && !Unthinking(ms[0])
    requires var result := CompactTo(ms, 1, Some(summary)); result.Compacted? && result.layer == 1
    ensures var result := CompactTo(ms, 1, Some(summary)).messages; |result| > 0 && result[0] != ms[0]
  {
    SystemMessagesKept(ms, 1, Some(summary));
    var out := CompactTo(ms, 1, Some(summary)).messages;
    assert out[..1] != ms[..1] && ms[..1] == [ms[0]] && out[..1] == [out[0]];
  }

  lemma {:induction false} QuotesThinking(m: Message)
    requires m.content == "<thinking>x</thinking>"
    ensures !Unthinking(m)
  {
    assert StandsAt(m.content, OPEN, 0) && StandsAt(m.content, CLOSE, 11);
    assert HasBlock(m.content);
  }

  /** The leading system message is altered by layer 1 when it holds a block of thinking, as in this history,
      for every summary. */
  lemma {:induction false} SystemMessageAltered(summary: string) returns (ms: History)
    requires summary != ""
    ensures SystemCount(ms) == 1 && ms[0].content == "<thinking>x</thinking>"
    ensures var result := CompactTo(ms, 1, Some(summary));
      result.Compacted? && result.layer == 1 && |result.messages| > 0 && result.messages[0] != ms[0]
  {
    var sys := Message(System, "<thinking>x</thinking>", "", [], "");
    var u, a := Message(User, "u", "", [], ""), Message(Assistant, "a", "", [], "");
    ms := ThreeTurns(sys, u, a);
    ThreeTurnsAre(sys, u, a, ms);
    QuotesThinking(sys);
    ThinkingIsAltered(ms, summary);
  }

  /** What is kept behind the split is the newest messages, one for one. */
  lemma {:induction false} NewestKept(ms: History, minTurns: int, summary: Option<string>)
    requires CompactTo(ms, minTurns, summary).Compacted?
    ensures var s, result := SplitIndex(ms, minTurns), CompactTo(ms, minTurns, summary);
      var n := |result.messages| - (|ms| - s);
      && 0 <= n
      && result.messages[n..] == (if result.layer == 1 then Processed(ms)[s..] else ms[s..])
      && SameShapes(ms[s..], result.messages[n..])
  {
    var s, out := SplitIndex(ms, minTurns), CompactTo(ms, minTurns, summary).messages;
    var n := |out| - (|ms| - s);
    if CompactTo(ms, minTurns, summary).layer == 1 {
      SummarizedParts(ms, minTurns, summary.value);
      assert out[n..] == Processed(ms)[s..];
    } else {
      assert out[n..] == ms[s..];
    }
  }

  lemma {:induction false} NewestAt(ms: History, minTurns: int, summary: Option<string>, i: nat, j: int)
    requires CompactTo(ms, minTurns, summary).Compacted? && SplitIndex(ms, minTurns) <= i < |ms|
    requires j == i + |CompactTo(ms, minTurns, summary).messages| - |ms|
    ensures var result := CompactTo(ms, minTurns, summary);
      0 <= j < |result.messages| && result.messages[j] == (if result.layer == 1 then Processed(ms)[i] else ms[i])
  {
    var s, out := SplitIndex(ms, minTurns), CompactTo(ms, minTurns, summary).messages;
    var n := |out| - (|ms| - s);
    NewestKept(ms, minTurns, summary);
    assert out[n..][i - s] == out[j];
  }

  /** A kept message is kept word for word, unless it is a long tool result or lies before the last two
      assistant messages and holds thinking; for messages that are no tool results exactly then. */
  lemma {:induction false} NewestWordForWord(ms: History, minTurns: int, summary: Option<string>, i: nat)
    requires CompactTo(ms, minTurns, summary).Compacted? && SplitIndex(ms, minTurns) <= i < |ms|
    ensures var result := CompactTo(ms, minTurns, summary);
      var j := i + |result.messages| - |ms|;
      var plain := result.layer == 4 || i >= PreserveFrom(ms) || Unthinking(ms[i]);
      && 0 <= j < |result.messages|
      && (ms[i].role != Tool ==> (result.messages[j] == ms[i] <==> plain))
      && (plain && |ms[i].content| <= COLLAPSE_THRESHOLD ==> result.messages[j] == ms[i])
  {
    NewestAt(ms, minTurns, summary, i, i + |CompactTo(ms, minTurns, summary).messages| - |ms|);
    ProcessedSame(ms, i);
  }

  lemma {:induction false} CompactionShrinks(ms: History, minTurns: int, summary: Option<string>, again: Option<string>)
    requires CompactTo(ms, minTurns, summary).Compacted?
    ensures var out := CompactTo(ms, minTurns, summary).messages;
            && SystemCount(ms) <= |out| <= |ms|
            && SameShapes(ms[..SystemCount(ms)], out[..SystemCount(ms)])
            && |AllTurns(out)| == minTurns
            && CompactTo(out, minTurns, again) == Skipped
  {
    if CompactTo(ms, minTurns, summary).layer == 1 {
      SummarizedTurns(ms, minTurns, summary.value);
      SummarizedKeeps(ms, minTurns, summary.value);
    } else {
      TruncatedKeeps(ms, minTurns);
    }
  }

  /** Whatever layer is reached, compaction keeps the leading system messages in their places, word for word
      exactly when the summary failed or layers 3 and 2 leave them alone; keeps the newest messages, which
      hold exactly minTurns turns; never grows the history, and cannot be repeated. */
  lemma {:induction false} CompactionKeeps(ms: History, minTurns: int, summary: Option<string>, again: Option<string>)
    requires CompactTo(ms, minTurns, summary).Compacted?
    ensures var c, result := SystemCount(ms), CompactTo(ms, minTurns, summary);
            && c <= |result.messages| <= |ms|
            && SameShapes(ms[..c], result.messages[..c])
            && (result.messages[..c] == ms[..c] <==> result.layer == 4 || SystemUntouched(ms))
    ensures var t, out := |ms| - SplitIndex(ms, minTurns), CompactTo(ms, minTurns, summary).messages;
            && t <= |out| && SameShapes(ms[|ms| - t..], out[|out| - t..])
            && |AllTurns(ms[|ms| - t..])| == |AllTurns(out)| == minTurns
            && CompactTo(out, minTurns, again) == Skipped
  {
    CompactionShrinks(ms, minTurns, summary, again);
    SystemMessagesKept(ms, minTurns, summary);
    NewestKept(ms, minTurns, summary);
    SplitKeeps(ms, minTurns);
  }

  lemma {:induction false} SystemShapes(a: History, b: History)
    requires AllSystem(a) && SameShapes(a, b)
    ensures AllSystem(b)
  {
    forall i | 0 <= i < |b| ensures b[i].role == System { assert SameShape(a[i], b[i]); }
  }

  lemma {:induction false} SystemsPaired(ms: History)
    requires AllSystem(ms)
    ensures Paired(ms)
  {
    if ms != [] {
      assert ms[0].role == System;
      SystemsPaired(ms[1..]);
      assert HeadOk(ms);
    }
  }

  lemma {:induction false} SystemThenPaired(sys: History, kept: History)
    requires AllSystem(sys) && Paired(kept)
    ensures Paired(sys + kept)
  {
    SystemsPaired(sys);
    PairedConcat(sys, kept);
  }

  lemma {:induction false} KeptPaired(ms: History, s: nat)
    requires Paired(ms) && s < |ms| && ms[s].role == User
    ensures Paired(ms[s..])
  {
    assert ms[..s] + ms[s..] == ms && ms[s..][0] == ms[s];
    PairedCut(ms[..s], ms[s..]);
  }

  /** Compaction keeps a paired history paired. */
  lemma {:induction false} CompactionPaired(ms: History, minTurns: int, summary: Option<string>)
    requires Paired(ms) && CompactTo(ms, minTurns, summary).Compacted?
    ensures Paired(CompactTo(ms, minTurns, summary).messages)
  {
    var c, s := SystemCount(ms), SplitIndex(ms, minTurns);
    KeptPaired(ms, s);
    if CompactTo(ms, minTurns, summary).layer == 1 {
      var p := Processed(ms);
      SummarizedParts(ms, minTurns, summary.value);
      ShapePaired(ms[s..], p[s..]);
      SystemThenPaired(p[..c] + [SummaryMessage(summary.value)], p[s..]);
    } else {
      SystemThenPaired(ms[..c], ms[s..]);
    }
  }
}
