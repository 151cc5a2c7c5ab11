/** What compacting a conversation leaves of it, message by message (internal/agent/compact.go). */
module CompactionMeaning {
  import opened Options
  import opened Conversation
  import opened Decimal
  import opened Compaction

  // ----- Turns -----

  /** Message j is the assistant's, and only tool results separate it from a user message before it. */
  ghost predicate IsTurnEnd(ms: History, j: nat) {
    j < |ms| && ms[j].role == Assistant && exists i: nat :: IsAskedAt(ms, i, j)
  }

  predicate IsAskedAt(ms: History, i: nat, j: nat) {
    i < j <= |ms| && ms[i].role == User && forall k :: i < k < j ==> ms[k].role == Tool
  }

  ghost function TurnEnds(ms: History): set<nat> {
    set j | 0 <= j < |ms| && IsTurnEnd(ms, j)
  }

  ghost function TurnEndsBefore(ms: History, n: nat): set<nat> {
    set j | 0 <= j < n && IsTurnEnd(ms, j)
  }

  lemma {:induction false} EndsTurnIs(ms: History, j: nat)
    requires j < |ms|
    ensures EndsTurn(ms, j) <==> IsTurnEnd(ms, j)
  {
    if EndsTurn(ms, j) { assert IsAskedAt(ms, WalkBack(ms, j - 1), j); }
    if IsTurnEnd(ms, j) {
      var i: nat :| IsAskedAt(ms, i, j);
      WalkBackStops(ms, i, j - 1);
    }
  }

  lemma {:induction false} OneMoreEnd(ms: History, n: nat)
    requires n < |ms|
    ensures |TurnEndsBefore(ms, n + 1)| == |TurnEndsBefore(ms, n)| + if IsTurnEnd(ms, n) then 1 else 0
  {
    assert n !in TurnEndsBefore(ms, n);
    assert TurnEndsBefore(ms, n + 1) == TurnEndsBefore(ms, n) + if IsTurnEnd(ms, n) then {n} else {};
  }

  lemma {:induction false} OneMoreTurn(ms: History, n: nat)
    requires n < |ms|
    ensures |Turns(ms, n + 1)| == |Turns(ms, n)| + if IsTurnEnd(ms, n) then 1 else 0
  {
    EndsTurnIs(ms, n);
  }

  lemma {:induction false} TurnsCountEnds(ms: History, n: nat)
    requires n <= |ms|
    ensures |Turns(ms, n)| == |TurnEndsBefore(ms, n)|
  {
    if n > 0 {
      TurnsCountEnds(ms, n - 1);
      OneMoreTurn(ms, n - 1);
      OneMoreEnd(ms, n - 1);
    } else {
      assert TurnEndsBefore(ms, 0) == {};
    }
  }

  /** There is one turn for each assistant message that ends one. */
  lemma {:induction false} TurnsAreEnds(ms: History)
    ensures |AllTurns(ms)| == |TurnEnds(ms)|
  {
    TurnsCountEnds(ms, |ms|);
    assert TurnEndsBefore(ms, |ms|) == TurnEnds(ms);
  }

  /** The newest turns begin with user message s. */
  ghost predicate NewestBeginAt(ms: History, turns: int, s: nat) {
    && s < |ms| && |TurnEnds(ms[s..])| == turns
    && exists e: nat :: IsAskedAt(ms, s, e) && IsTurnEnd(ms, e)
  }

  lemma {:induction false} TurnHasEnd(ms: History, n: nat, k: nat)
    requires n <= |ms| && k < |Turns(ms, n)|
    ensures var t := Turns(ms, n)[k]; IsAskedAt(ms, t.user, t.assistant) && IsTurnEnd(ms, t.assistant)
  {
    if k < |Turns(ms, n - 1)| { TurnHasEnd(ms, n - 1, k); } else { assert EndsTurn(ms, n - 1); }
  }

  lemma {:induction false} SplitBegins(ms: History, minTurns: int)
    requires 1 <= minTurns <= |TurnEnds(ms)|
    ensures NewestBeginAt(ms, minTurns, SplitIndex(ms, minTurns))
  {
    TurnsAreEnds(ms);
    SplitKeeps(ms, minTurns);
    TurnsAreEnds(ms[SplitIndex(ms, minTurns)..]);
    TurnHasEnd(ms, |ms|, |AllTurns(ms)| - minTurns);
  }

  // ----- Thinking -----

  /** At least two assistant messages come behind message i, and there are more than two in all. */
  ghost predicate IsOld(ms: History, i: nat) {
    exists a, b, c :: 0 <= a < b < c < |ms| && i < b
                      && ms[a].role == Assistant && ms[b].role == Assistant && ms[c].role == Assistant
  }

  lemma {:induction false} PositionsAre(ms: History, n: nat)
    requires n <= |ms|
    ensures forall i: nat :: i in AssistantPositions(ms, n) <==> i < n && ms[i].role == Assistant
    ensures forall k, l :: 0 <= k < l < |AssistantPositions(ms, n)| ==>
      AssistantPositions(ms, n)[k] < AssistantPositions(ms, n)[l]
  {
    if n > 0 {
      PositionsAre(ms, n - 1);
      var before := AssistantPositions(ms, n - 1);
      assert forall k :: 0 <= k < |before| ==> before[k] in before;
    }
  }

  lemma {:induction false} LastThree(ms: History, at: seq<nat>)
    requires at == AssistantPositions(ms, |ms|) && |at| > 2
    ensures var n := |at|;
      && at[n - 3] < at[n - 2] < at[n - 1] < |ms| && ms[at[n - 3]].role == Assistant
      && ms[at[n - 2]].role == Assistant && ms[at[n - 1]].role == Assistant
  {
    PositionsAre(ms, |ms|);
    var n := |at|;
    assert at[n - 3] in at && at[n - 2] in at && at[n - 1] in at;
  }

  /** Exactly such messages lose their thinking. */
  lemma {:induction false} PreservedAre(ms: History, i: nat)
    ensures i < PreserveFrom(ms) <==> IsOld(ms, i)
  {
    var at := AssistantPositions(ms, |ms|);
    if |at| > 2 { LastThree(ms, at); }
    if IsOld(ms, i) { OldIsBefore(ms, i, at); }
  }

  lemma {:induction false} OldIsBefore(ms: History, i: nat, at: seq<nat>)
    requires IsOld(ms, i) && at == AssistantPositions(ms, |ms|)
    ensures |at| > 2 && i < at[|at| - 2]
  {
    PositionsAre(ms, |ms|);
    var a: nat, b: nat, c: nat :| 0 <= a < b < c < |ms| && i < b && ms[a].role == Assistant
                                  && ms[b].role == Assistant && ms[c].role == Assistant;
    ThreePlaces(at, a, b, c);
  }

  lemma {:induction false} ThreePlaces(at: seq<nat>, a: nat, b: nat, c: nat)
    requires a in at && b in at && c in at && a < b < c
    requires forall k, l :: 0 <= k < l < |at| ==> at[k] < at[l]
    ensures |at| > 2 && b <= at[|at| - 2]
  {
    var i :| 0 <= i < |at| && at[i] == a;
    var j :| 0 <= j < |at| && at[j] == b;
    var k :| 0 <= k < |at| && at[k] == c;
    assert i < j < k;
  }

  /** No opening mark has a closing one behind it. */
  ghost predicate NoBlock(s: string) {
    forall i: nat, j: nat :: StandsAt(s, "<thinking>", i) && StandsAt(s, "</thinking>", j) ==> j < i + 10
  }

  /** The text is a, then a block that holds x, then b; the block begins with the first opening mark and ends
      with the first closing mark behind that. */
  predicate IsBlock(s: string, a: string, x: string, b: string) {
    && s == a + "<thinking>" + x + "</thinking>" + b
    && (forall i :: 0 <= i < |a| ==> !StandsAt(s, "<thinking>", i))
    && (forall j :: |a| + 10 <= j < |a| + 10 + |x| ==> !StandsAt(s, "</thinking>", j))
  }

  lemma {:induction false} PartsOf(s: string, a: string, x: string, b: string)
    requires s == a + OPEN + x + CLOSE + b
    ensures StandsAt(s, OPEN, |a|) && StandsAt(s, CLOSE, |a| + |OPEN| + |x|)
    ensures s[..|a|] == a && s[|a| + |OPEN| + |x| + |CLOSE|..] == b
  {
  }

  /** A block is cut out, and what follows is treated likewise; without a block nothing changes. */
  lemma {:induction false} BlockIsCut(s: string, a: string, x: string, b: string)
    ensures NoBlock(s) ==> WithoutThinking(s) == s
    ensures IsBlock(s, a, x, b) ==> WithoutThinking(s) == a + WithoutThinking(b)
  {
    BlocksAreRemoved(s);
    if IsBlock(s, a, x, b) {
      PartsOf(s, a, x, b);
      FoundFirst(s, OPEN, 0);
      FoundFirst(s, CLOSE, |a| + |OPEN|);
      assert Find(s, OPEN, 0).value == |a|;
      assert Find(s, CLOSE, |a| + |OPEN|).value == |a| + |OPEN| + |x|;
    }
  }

  // ----- Messages -----

  /** What is left of a message: no thinking when it is old, and of a tool result that is still long only its
      length. */
  predicate IsLighter(m: Message, aged: bool, r: Message) {
    var content := if aged then WithoutThinking(m.content) else m.content;
    && r.role == m.role && r.toolCalls == m.toolCalls && r.toolName == m.toolName
    && r.thinking == (if aged then "" else m.thinking)
    && r.content == (if m.role == Tool && |content| > 500
                     then "[Tool result: " + (if m.toolName == "" then "unknown" else m.toolName) + ", "
                          + DecimalString(|content|) + " chars, truncated for compaction]"
                     else content)
  }

  /** The message in a compacted history: untouched when the summary failed. */
  ghost predicate IsKeptAs(ms: History, i: nat, layer: nat, r: Message)
    requires i < |ms|
  {
    if layer == 4 then r == ms[i] else IsLighter(ms[i], IsOld(ms, i), r)
  }

  lemma {:induction false} ProcessedIsLighter(ms: History, i: nat)
    requires i < |ms|
    ensures IsLighter(ms[i], IsOld(ms, i), Processed(ms)[i])
  {
    PreservedAre(ms, i);
  }

  lemma {:induction false} FewDigits(n: nat)
    ensures |DecimalString(n)| <= 3 + n / 1000
  {
    if n >= 1000 {
      FewDigits(n / 10);
      assert 1 + n / 10 / 1000 <= n / 1000;
    } else if n >= 10 {
      assert |Digits(n / 10)| <= 2 by { assert n / 10 >= 10 ==> |Digits(n / 10 / 10)| == 1; }
    }
  }

  /** What is said of a long tool result is short. */
  lemma {:induction false} LongResultsShrink(m: Message, aged: bool, r: Message)
    requires IsLighter(m, aged, r) && m.role == Tool
    ensures |r.content| <= 500 || |r.content| <= |m.toolName| + 60 + |m.content| / 1000
  {
    WithoutIsShorter(m.content);
    var n := if aged then |WithoutThinking(m.content)| else |m.content|;
    FewDigits(n);
  }

  // ----- Compaction -----

  /** There are enough turns, and something other than system messages before the newest of them. */
  ghost predicate CanCompact(ms: History, minTurns: int) {
    && 1 <= minTurns <= |TurnEnds(ms)|
    && exists s: nat, k :: NewestBeginAt(ms, minTurns, s) && 0 <= k < s && ms[k].role != System
  }

  lemma {:induction false} BeforeSplit(ms: History, minTurns: int, s: nat)
    requires NewestBeginAt(ms, minTurns, s)
    ensures SystemCount(ms) < s <==>
            exists t: nat, k :: NewestBeginAt(ms, minTurns, t) && 0 <= k < t && ms[k].role != System
  {
    var c := SystemCount(ms);
    assert forall k :: 0 <= k < c ==> ms[..c][k] == ms[k];
    if c < s { assert NewestBeginAt(ms, minTurns, s) && ms[c].role != System; }
    if t: nat, k :| NewestBeginAt(ms, minTurns, t) && 0 <= k < t && ms[k].role != System {
      OneBeginning(ms, minTurns, s, t);
    }
  }

  /** Compaction does something exactly when there is something to do. */
  lemma {:induction false} CompactsWhenItCan(ms: History, minTurns: int, summary: Option<string>)
    ensures CompactTo(ms, minTurns, summary).Compacted? <==> CanCompact(ms, minTurns)
  {
    TurnsAreEnds(ms);
    if 1 <= minTurns <= |TurnEnds(ms)| {
      SplitBegins(ms, minTurns);
      BeforeSplit(ms, minTurns, SplitIndex(ms, minTurns));
    }
  }

  lemma {:induction false} EndsInTail(ms: History, s: nat, j: nat)
    requires s < |ms| && ms[s].role == User
    ensures j < |ms| - s ==> (IsTurnEnd(ms[s..], j) <==> IsTurnEnd(ms, s + j))
  {
    if j < |ms| - s {
      EndsTurnIs(ms, s + j);
      EndsTurnIs(ms[s..], j);
      assert ms == ms[..s] + ms[s..];
      EndsTurnInTail(ms[..s], ms[s..], j);
    }
  }

  /** A later beginning has fewer turns. */
  lemma {:induction false} OneBeginning(ms: History, turns: int, s: nat, t: nat)
    requires NewestBeginAt(ms, turns, s) && NewestBeginAt(ms, turns, t)
    ensures s == t
  {
    if s < t {
      FewerTurns(ms, s, t);
    } else if t < s {
      FewerTurns(ms, t, s);
    }
  }

  lemma {:induction false} EarlierEnds(ms: History, s: nat, t: nat, e: nat)
    requires s < t < |ms| && ms[s].role == User && ms[t].role == User && IsAskedAt(ms, s, e) && IsTurnEnd(ms, e)
    ensures e < t && e - s in TurnEnds(ms[s..])
    ensures forall j: nat :: j in TurnEnds(ms[t..]) ==> j + (t - s) in TurnEnds(ms[s..]) - {e - s}
  {
    assert e < t by { assert e != t; }
    EndsInTail(ms, s, e - s);
    forall j: nat | j in TurnEnds(ms[t..]) ensures j + (t - s) in TurnEnds(ms[s..]) - {e - s} {
      EndsInTail(ms, t, j);
      EndsInTail(ms, s, j + (t - s));
    }
  }

  lemma {:induction false} FewerTurns(ms: History, s: nat, t: nat)
    requires s < t < |ms| && ms[s].role == User && ms[t].role == User
    requires exists e: nat :: IsAskedAt(ms, s, e) && IsTurnEnd(ms, e)
    ensures |TurnEnds(ms[t..])| < |TurnEnds(ms[s..])|
  {
    var e: nat :| IsAskedAt(ms, s, e) && IsTurnEnd(ms, e);
    EarlierEnds(ms, s, t, e);
    NoMore(TurnEnds(ms[t..]), TurnEnds(ms[s..]) - {e - s}, t - s);
  }

  lemma {:induction false} NoMore(a: set<nat>, b: set<nat>, d: nat)
    requires forall j :: j in a ==> j + d in b
    ensures |a| <= |b|
  {
    if a != {} {
      var x :| x in a;
      NoMore(a - {x}, b - {x + d}, d);
    }
  }

  /** The messages from here to the end of the compacted history are the newest ones, from s on. */
  ghost predicate NewestAre(ms: History, s: nat, layer: nat, out: History, n: nat)
    requires n + |ms| == s + |out|
  {
    forall k :: n <= k < |out| ==> IsKeptAs(ms, k - n + s, layer, out[k])
  }

  ghost predicate SystemAre(ms: History, c: nat, layer: nat, out: History)
    requires c <= |ms| && c <= |out|
  {
    forall k :: 0 <= k < c ==> ms[k].role == System && IsKeptAs(ms, k, layer, out[k])
  }

  lemma {:induction false} SummarizedMeans(ms: History, p: History, m: Message, out: History, c: nat, s: nat)
    requires |p| == |ms| && forall i :: 0 <= i < |ms| ==> IsLighter(ms[i], IsOld(ms, i), p[i])
    requires c == SystemCount(ms) && c <= s <= |ms| && out == p[..c] + [m] + p[s..]
    ensures |out| == c + 1 + |ms| - s && out[c] == m && SystemAre(ms, c, 1, out) && NewestAre(ms, s, 1, out, c + 1)
  {
    assert forall k :: 0 <= k < c ==> ms[..c][k] == ms[k];
    forall k | c + 1 <= k < |out| ensures IsKeptAs(ms, k - (c + 1) + s, 1, out[k]) {
      assert out[k] == p[s..][k - (c + 1)] == p[k - (c + 1) + s];
    }
  }

  lemma {:induction false} TruncatedIs(ms: History, minTurns: int)
    requires 1 <= minTurns <= |AllTurns(ms)|
    ensures Truncated(ms, minTurns) == ms[..SystemCount(ms)] + ms[SplitIndex(ms, minTurns)..]
  {
  }

  lemma {:induction false} TruncatedMeans(ms: History, out: History, c: nat, s: nat)
    requires c == SystemCount(ms) && c <= s <= |ms| && out == ms[..c] + ms[s..]
    ensures |out| == c + |ms| - s && SystemAre(ms, c, 4, out) && NewestAre(ms, s, 4, out, c)
  {
    assert forall k :: 0 <= k < c ==> ms[..c][k] == ms[k];
  }

  /** A compacted history: the leading system messages, a summary unless it failed, and the newest turns. */
  lemma {:induction false} CompactionMeans(ms: History, minTurns: int, summary: Option<string>)
    returns (c: nat, s: nat)
    requires CompactTo(ms, minTurns, summary).Compacted?
    ensures c < s && NewestBeginAt(ms, minTurns, s) && ms[c].role != System
    ensures var (layer, out) := (CompactTo(ms, minTurns, summary).layer, CompactTo(ms, minTurns, summary).messages);
      if summary.Some? && summary.value != "" then
        && layer == 1 && |out| == c + 1 + |ms| - s
        && out[c] == Message(System, "[Summary of earlier conversation]\n\n" + summary.value, "", [], "")
        && SystemAre(ms, c, 1, out) && NewestAre(ms, s, 1, out, c + 1)
      else
        && layer == 4 && |out| == c + |ms| - s
        && SystemAre(ms, c, 4, out) && NewestAre(ms, s, 4, out, c)
  {
    c, s := SystemCount(ms), SplitIndex(ms, minTurns);
    TurnsAreEnds(ms);
    SplitBegins(ms, minTurns);
    if summary.Some? && summary.value != "" {
      forall i | 0 <= i < |ms| ensures IsLighter(ms[i], IsOld(ms, i), Processed(ms)[i]) { ProcessedIsLighter(ms, i); }
      SummarizedMeans(ms, Processed(ms), SummaryMessage(summary.value), Summarized(ms, minTurns, summary.value), c, s);
    } else {
      TruncatedIs(ms, minTurns);
      TruncatedMeans(ms, Truncated(ms, minTurns), c, s);
    }
  }
}
