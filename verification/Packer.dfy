/** Packing the history into the prompt budget (internal/agent/prompt_packer.go,
    context_policy.go): newest first, in units that keep calls and results together. */
module Packer {
  import opened Conversation

  // ----- Weights -----

  function MessageChars(m: Message): nat {
    |m.content| + |m.thinking| + 32 + |m.toolCalls| * 120
  }

  /** estimatePromptTokens of one message. */
  function MessageTokens(m: Message): (n: nat)
    ensures n >= 8
  {
    MessageChars(m) / 4
  }

  function Tokens(ms: History): nat {
    if ms == [] then 0 else Tokens(ms[..|ms| - 1]) + MessageTokens(ms[|ms| - 1])
  }

  lemma {:induction false} TokensConcat(a: History, b: History)
    ensures Tokens(a + b) == Tokens(a) + Tokens(b)
    decreases |b|
  {
    if b == [] {
      assert a + b == a;
    } else {
      var n := |b| - 1;
      TokensConcat(a, b[..n]);
      assert (a + b)[..|a + b| - 1] == a + b[..n];
    }
  }

  // ----- Units -----

  datatype Unit = Unit(start: nat, end: nat)

  function ToolRunEnd(h: History, i: nat): (e: nat)
    requires i <= |h|
    ensures i <= e <= |h|
    ensures forall k :: i <= k < e ==> h[k].role == Tool
    ensures e < |h| ==> h[e].role != Tool
    decreases |h| - i
  {
    if i < |h| && h[i].role == Tool then ToolRunEnd(h, i + 1) else i
  }

  function UnitEnd(h: History, i: nat): (e: nat)
    requires i < |h|
    ensures i < e <= |h|
  {
    if h[i].role == Assistant && h[i].toolCalls != [] then ToolRunEnd(h, i + 1) else i + 1
  }

  /** The units from message i on. */
  function UnitsFrom(h: History, i: nat): (us: seq<Unit>)
    requires i <= |h|
    ensures us == [] <==> i == |h|
    decreases |h| - i
  {
    if i == |h| then [] else [Unit(i, UnitEnd(h, i))] + UnitsFrom(h, UnitEnd(h, i))
  }

  /** The units lie one after the other from message i to the end. */
  ghost predicate Tiles(us: seq<Unit>, i: nat, n: nat) {
    if us == [] then i == n else us[0].start == i && i < us[0].end <= n && Tiles(us[1..], us[0].end, n)
  }

  lemma {:induction false} UnitsTile(h: History, i: nat)
    requires i <= |h|
    ensures Tiles(UnitsFrom(h, i), i, |h|)
    decreases |h| - i
  {
    if i < |h| { UnitsTile(h, UnitEnd(h, i)); }
  }

  lemma {:induction false} TileBounds(us: seq<Unit>, i: nat, n: nat)
    requires Tiles(us, i, n)
    ensures i <= n
    ensures forall k :: 0 <= k < |us| ==> i <= us[k].start < us[k].end <= n
    ensures forall j, k :: 0 <= j < k < |us| ==> us[j].end <= us[k].start
    ensures us != [] ==> us[|us| - 1].end == n
    decreases |us|
  {
    if us != [] {
      TileBounds(us[1..], us[0].end, n);
      forall k | 0 <= k < |us| ensures i <= us[k].start < us[k].end <= n {
        if k > 0 { assert us[k] == us[1..][k - 1]; }
      }
      forall j, k | 0 <= j < k < |us| ensures us[j].end <= us[k].start {
        assert us[k] == us[1..][k - 1];
        if j > 0 { assert us[j] == us[1..][j - 1]; }
      }
    }
  }

  /** toolPairUnits. */
  method ToolPairUnits(history: History) returns (units: seq<Unit>)
    ensures units == UnitsFrom(history, 0)
  {
    units := [];
    var i := 0;
    while i < |history|
      invariant 0 <= i <= |history|
      invariant UnitsFrom(history, 0) == units + UnitsFrom(history, i)
    {
      var end := i + 1;
      if history[i].role == Assistant && |history[i].toolCalls| > 0 {
        while end < |history| && history[end].role == Tool
          invariant i < end <= |history|
          invariant ToolRunEnd(history, i + 1) == ToolRunEnd(history, end)
        {
          end := end + 1;
        }
      }
      assert UnitsFrom(history, i) == [Unit(i, end)] + UnitsFrom(history, end);
      assert units + ([Unit(i, end)] + UnitsFrom(history, end)) == units + [Unit(i, end)] + UnitsFrom(history, end);
      units := units + [Unit(i, end)];
      i := end;
    }
    assert units + [] == units;
  }

  // ----- What packing keeps -----

  function Slice(h: History, u: Unit): History {
    if u.start <= u.end <= |h| then h[u.start..u.end] else []
  }

  /** The messages of the kept units. */
  function Picked(h: History, us: seq<Unit>, keep: seq<bool>): History
    requires |keep| == |us|
  {
    if us == [] then [] else (if keep[0] then Slice(h, us[0]) else []) + Picked(h, us[1..], keep[1..])
  }

  function UnitTokens(h: History, u: Unit): nat {
    Tokens(Slice(h, u))
  }

  function Weights(h: History, us: seq<Unit>): (w: seq<nat>)
    ensures |w| == |us| && forall i :: 0 <= i < |us| ==> w[i] == UnitTokens(h, us[i])
  {
    seq(|us|, i requires 0 <= i < |us| => UnitTokens(h, us[i]))
  }

  /** The weight of the kept units from index k on. */
  function Kept(w: seq<nat>, keep: seq<bool>, k: nat): nat
    requires |keep| == |w| && k <= |w|
    decreases |w| - k
  {
    if k == |w| then 0 else (if keep[k] then w[k] else 0) + Kept(w, keep, k + 1)
  }

  lemma {:induction false} KeptAdd(w: seq<nat>, keep: seq<bool>, i: nat, k: nat)
    requires |keep| == |w| && i < |w| && k <= |w| && !keep[i]
    ensures Kept(w, keep[i := true], k) == Kept(w, keep, k) + (if k <= i then w[i] else 0)
    decreases |w| - k
  {
    if k < |w| { KeptAdd(w, keep, i, k + 1); }
  }

  lemma {:induction false} KeptSkip(w: seq<nat>, keep: seq<bool>, j: nat, k: nat)
    requires |keep| == |w| && j <= k <= |w| && forall i :: j <= i < k ==> !keep[i]
    ensures Kept(w, keep, j) == Kept(w, keep, k)
    decreases k - j
  {
    if j < k { KeptSkip(w, keep, j + 1, k); }
  }

  lemma {:induction false} PickedTokens(h: History, us: seq<Unit>, keep: seq<bool>, k: nat)
    requires |keep| == |us| && k <= |us|
    ensures Tokens(Picked(h, us[k..], keep[k..])) == Kept(Weights(h, us), keep, k)
    decreases |us| - k
  {
    if k < |us| {
      PickedTokens(h, us, keep, k + 1);
      assert us[k..][1..] == us[k + 1..] && keep[k..][1..] == keep[k + 1..];
      var head: History := if keep[k] then Slice(h, us[k]) else [];
      TokensConcat(head, Picked(h, us[k + 1..], keep[k + 1..]));
    }
  }

  // ----- Message indices -----

  /** The messages of h[lo..hi] whose index is included. */
  function Filtered(h: History, included: set<nat>, lo: nat, hi: nat): History
    requires lo <= hi <= |h|
    decreases hi - lo
  {
    if lo == hi then [] else Filtered(h, included, lo, hi - 1) + (if hi - 1 in included then [h[hi - 1]] else [])
  }

  lemma {:induction false} FilteredSplit(h: History, included: set<nat>, lo: nat, mid: nat, hi: nat)
    requires lo <= mid <= hi <= |h|
    ensures Filtered(h, included, lo, hi) == Filtered(h, included, lo, mid) + Filtered(h, included, mid, hi)
    decreases hi - mid
  {
    if mid < hi { FilteredSplit(h, included, lo, mid, hi - 1); }
  }

  lemma {:induction false} FilteredUnit(h: History, included: set<nat>, lo: nat, hi: nat, all: bool)
    requires lo <= hi <= |h| && forall i :: lo <= i < hi ==> (i in included) == all
    ensures Filtered(h, included, lo, hi) == if all then h[lo..hi] else []
    decreases hi - lo
  {
    if lo < hi { FilteredUnit(h, included, lo, hi - 1, all); }
  }

  /** The included message indices are exactly those of the kept units. */
  ghost predicate Covers(us: seq<Unit>, keep: seq<bool>, included: set<nat>) {
    |keep| == |us| && forall k, i :: 0 <= k < |us| && us[k].start <= i < us[k].end ==> (i in included) == keep[k]
  }

  lemma {:induction false} FilteredPicks(h: History, us: seq<Unit>, keep: seq<bool>, included: set<nat>, lo: nat)
    requires Tiles(us, lo, |h|) && Covers(us, keep, included) && lo <= |h|
    ensures Filtered(h, included, lo, |h|) == Picked(h, us, keep)
    decreases |us|
  {
    if us != [] {
      TileBounds(us, lo, |h|);
      var u := us[0];
      FilteredSplit(h, included, lo, u.end, |h|);
      FilteredUnit(h, included, lo, u.end, keep[0]);
      forall k, i | 0 <= k < |us[1..]| && us[1..][k].start <= i < us[1..][k].end
        ensures (i in included) == keep[1..][k]
      {
        assert us[1..][k] == us[k + 1];
      }
      FilteredPicks(h, us[1..], keep[1..], included, u.end);
    }
  }

  // ----- Packing -----

  datatype Report = Report(budget: int, included: nat, skipped: nat, includedMessages: nat, skippedMessages: nat,
                           forced: bool)

  /** The tokens of a leading system message, which is always kept. */
  function SystemTokens(h: History): nat {
    if h != [] && h[0].role == System then MessageTokens(h[0]) else 0
  }

  /** Every dropped unit would have overflowed the budget, given the system message and the newer
      units that were kept. */
  ghost predicate DropsOverflow(w: seq<nat>, base: nat, keep: seq<bool>, from: nat, budget: int)
    requires |keep| == |w|
  {
    forall k :: from <= k < |w| && !keep[k] ==> base + Kept(w, keep, k + 1) + w[k] > budget
  }

  /** The newest-first fill, with the units from k on decided; sys tells that unit 0 is the system
      message, kept from the start. */
  ghost predicate FillOk(w: seq<nat>, sys: bool, keep: seq<bool>, used: nat, k: nat, budget: int) {
    && |keep| == |w| && k <= |w| && w != []
    && (sys ==> keep[0])
    && used == Kept(w, keep, 0)
    && (forall j :: 0 <= j < k && !(j == 0 && sys) ==> !keep[j])
    && DropsOverflow(w, Base(w, sys), keep, k, budget)
    && (Base(w, sys) <= budget ==> used <= budget)
  }

  function Base(w: seq<nat>, sys: bool): nat
    requires w != []
  {
    if sys then w[0] else 0
  }

  /** Before unit k is decided, the budget used is the system message and the newer units. */
  lemma {:induction false} UsedSoFar(w: seq<nat>, sys: bool, keep: seq<bool>, used: nat, k: nat, budget: int)
    requires k < |w| && FillOk(w, sys, keep, used, k + 1, budget) && !keep[k]
    ensures used == Base(w, sys) + Kept(w, keep, k + 1)
  {
    KeptSkip(w, keep, if sys then 1 else 0, k + 1);
  }

  lemma {:induction false} FillDrop(w: seq<nat>, sys: bool, keep: seq<bool>, used: nat, k: nat, budget: int)
    requires k < |w| && FillOk(w, sys, keep, used, k + 1, budget) && !keep[k] && used + w[k] > budget
    ensures FillOk(w, sys, keep, used, k, budget)
  {
    UsedSoFar(w, sys, keep, used, k, budget);
  }

  lemma {:induction false} FillKeep(w: seq<nat>, sys: bool, keep: seq<bool>, used: nat, k: nat, budget: int)
    requires k < |w| && FillOk(w, sys, keep, used, k + 1, budget) && !keep[k] && used + w[k] <= budget
    ensures FillOk(w, sys, keep[k := true], used + w[k], k, budget)
  {
    KeptAdd(w, keep, k, 0);
    AddKeepsOverflow(w, Base(w, sys), keep, k, k + 1, budget);
  }

  /** Keeping one more unit leaves every overflow an overflow. */
  lemma {:induction false} AddKeepsOverflow(w: seq<nat>, base: nat, keep: seq<bool>, i: nat, from: nat, budget: int)
    requires |keep| == |w| && i < |w| && !keep[i] && from <= i + 1 && DropsOverflow(w, base, keep, from, budget)
    ensures DropsOverflow(w, base, keep[i := true], if from <= i then from else i, budget)
  {
    var more := keep[i := true];
    forall j | from <= j < |w| && !more[j] ensures base + Kept(w, more, j + 1) + w[j] > budget {
      KeptAdd(w, keep, i, j + 1);
    }
  }

  lemma {:induction false} FirstUnit(h: History)
    requires h != []
    ensures UnitsFrom(h, 0) != [] && UnitsFrom(h, 0)[0].start == 0
    ensures h[0].role == System ==> UnitsFrom(h, 0)[0] == Unit(0, 1) && UnitTokens(h, Unit(0, 1)) == SystemTokens(h)
  {
    assert h[0..1] == [h[0]];
    assert [h[0]][..0] == [];
    assert Tokens([h[0]]) == Tokens([h[0]][..0]) + MessageTokens(h[0]);
  }

  lemma {:induction false} TokensSnoc(h: History, lo: nat, i: nat)
    requires lo <= i < |h|
    ensures Tokens(h[lo..i + 1]) == Tokens(h[lo..i]) + MessageTokens(h[i])
  {
    assert h[lo..i + 1][..i - lo] == h[lo..i];
  }

  lemma {:induction false} CoversAdd(us: seq<Unit>, keep: seq<bool>, included: set<nat>, n: nat, k: nat,
                                     included': set<nat>)
    requires Tiles(us, 0, n) && Covers(us, keep, included) && k < |us|
    requires forall m :: m in included' <==> m in included || us[k].start <= m < us[k].end
    ensures Covers(us, keep[k := true], included')
  {
    TileBounds(us, 0, n);
    forall j, i | 0 <= j < |us| && us[j].start <= i < us[j].end ensures (i in included') == keep[k := true][j] {
      if j < k { assert us[j].end <= us[k].start; }
      if k < j { assert us[k].end <= us[j].start; }
    }
  }

  /** The loop of includeUnit, over messages of which none is included yet. */
  method AddMessages(history: History, start: nat, end: nat, included: set<nat>, used: nat)
    returns (included': set<nat>, used': nat)
    requires start <= end <= |history| && forall m :: start <= m < end ==> m !in included
    ensures forall m :: m in included' <==> m in included || start <= m < end
    ensures used' == used + Tokens(history[start..end])
  {
    included', used' := included, used;
    assert history[start..start] == [];
    for i := start to end
      invariant forall m :: m in included' <==> m in included || start <= m < i
      invariant used' == used + Tokens(history[start..i])
    {
      TokensSnoc(history, start, i);
      if i !in included' {
        included' := included' + {i};
        used' := used' + MessageTokens(history[i]);
      }
    }
  }

  lemma {:induction false} NotYetIncluded(us: seq<Unit>, keep: seq<bool>, included: set<nat>, n: nat, k: nat)
    requires Tiles(us, 0, n) && Covers(us, keep, included) && k < |us| && !keep[k]
    ensures us[k].start <= us[k].end <= n && forall m :: us[k].start <= m < us[k].end ==> m !in included
  {
    TileBounds(us, 0, n);
  }

  /** includeUnit: adds the messages of a unit that is not yet included. */
  method IncludeUnit(history: History, units: seq<Unit>, ghost keep: seq<bool>, k: nat, included: set<nat>, used: nat)
    returns (included': set<nat>, used': nat)
    requires Tiles(units, 0, |history|) && k < |units| && Covers(units, keep, included) && !keep[k]
    ensures Covers(units, keep[k := true], included')
    ensures units[k].start <= units[k].end <= |history| && used' == used + UnitTokens(history, units[k])
  {
    NotYetIncluded(units, keep, included, |history|, k);
    included', used' := AddMessages(history, units[k].start, units[k].end, included, used);
    CoversAdd(units, keep, included, |history|, k, included');
  }

  lemma {:induction false} PickedAll(h: History, i: nat, keep: seq<bool>)
    requires i <= |h| && |keep| == |UnitsFrom(h, i)| && forall k :: 0 <= k < |keep| ==> keep[k]
    ensures Picked(h, UnitsFrom(h, i), keep) == h[i..]
    decreases |h| - i
  {
    if i < |h| {
      PickedAll(h, UnitEnd(h, i), keep[1..]);
      assert h[i..] == h[i..UnitEnd(h, i)] + h[UnitEnd(h, i)..];
    }
  }

  /** What packing promises. The units kept are whole units of the history; the newest one is
      always kept, and so is a leading system message; a unit is dropped only when it would have
      overflowed the budget together with the system message and the newer units kept. */
  ghost predicate PackOk(h: History, budget: int, packed: History, report: Report, us: seq<Unit>, keep: seq<bool>) {
    && us == UnitsFrom(h, 0) && |keep| == |us|
    && packed == Picked(h, us, keep)
    && (h != [] ==> keep[|us| - 1] && (h[0].role == System ==> keep[0]))
    && DropsOverflow(Weights(h, us), SystemTokens(h), keep, 0, budget)
    && report.included == Tokens(packed) && report.included + report.skipped == Tokens(h)
    && report.includedMessages == |packed| && report.includedMessages + report.skippedMessages == |h|
    && (!report.forced && SystemTokens(h) <= budget ==> report.included <= budget)
    && (report.forced ==> us != [] && SystemTokens(h) + UnitTokens(h, us[|us| - 1]) > budget)
  }

  function Budget(inputBudget: int): int {
    if inputBudget <= 0 then 1 else inputBudget
  }

  /** The start of the fill: a leading system message is kept. */
  method Anchor(history: History, units: seq<Unit>, budget: int)
    returns (included: set<nat>, used: nat, ghost keep: seq<bool>)
    requires history != [] && units == UnitsFrom(history, 0)
    ensures Covers(units, keep, included)
    ensures FillOk(Weights(history, units), history[0].role == System, keep, used, |units|, budget)
  {
    FirstUnit(history);
    UnitsTile(history, 0);
    included, used, keep := {}, 0, seq(|units|, _ => false);
    KeptSkip(Weights(history, units), keep, 0, |units|);
    if history[0].role == System {
      KeptAdd(Weights(history, units), keep, 0, 0);
      CoversAdd(units, keep, included, |history|, 0, {0});
      keep, included, used := keep[0 := true], {0}, MessageTokens(history[0]);
    }
  }

  /** Fills the budget from the newest unit to the oldest. */
  method FillBackward(history: History, units: seq<Unit>, budget: int, ghost w: seq<nat>, ghost sys: bool,
                      included0: set<nat>, used0: nat, ghost keep0: seq<bool>)
    returns (included: set<nat>, used: nat, ghost keep: seq<bool>)
    requires Tiles(units, 0, |history|) && |w| == |units| && Covers(units, keep0, included0)
    requires forall k :: 0 <= k < |units| ==> units[k].start < units[k].end <= |history|
                                              && w[k] == UnitTokens(history, units[k])
    requires FillOk(w, sys, keep0, used0, |units|, budget)
    ensures Covers(units, keep, included) && FillOk(w, sys, keep, used, 0, budget)
  {
    included, used, keep := included0, used0, keep0;
    var k := |units|;
    while k > 0
      invariant 0 <= k <= |units|
      invariant Covers(units, keep, included)
      invariant FillOk(w, sys, keep, used, k, budget)
    {
      k := k - 1;
      var u := units[k];
      if u.start in included {
        assert keep[k];
        continue;
      }
      assert !keep[k];
      var tokens := UnitTokens(history, u);
      if used + tokens > budget {
        FillDrop(w, sys, keep, used, k, budget);
        continue;
      }
      var more, total := IncludeUnit(history, units, keep, k, included, used);
      FillKeep(w, sys, keep, used, k, budget);
      included, used, keep := more, total, keep[k := true];
    }
  }

  lemma {:induction false} NewestOverflows(w: seq<nat>, sys: bool, keep: seq<bool>, used: nat, budget: int)
    requires FillOk(w, sys, keep, used, 0, budget) && !keep[|w| - 1]
    ensures Base(w, sys) + w[|w| - 1] > budget
    ensures DropsOverflow(w, Base(w, sys), keep[|w| - 1 := true], 0, budget)
  {
    var n := |w| - 1;
    assert Kept(w, keep, n + 1) == 0;
    AddKeepsOverflow(w, Base(w, sys), keep, n, 0, budget);
  }

  lemma {:induction false} WeightsOf(history: History, units: seq<Unit>)
    requires history != [] && units == UnitsFrom(history, 0)
    ensures Tiles(units, 0, |history|) && units != [] && |Weights(history, units)| == |units|
    ensures forall k :: 0 <= k < |units| ==> units[k].start < units[k].end <= |history|
                                             && Weights(history, units)[k] == UnitTokens(history, units[k])
    ensures units[|units| - 1].end == |history|
    ensures Base(Weights(history, units), history[0].role == System) == SystemTokens(history)
  {
    FirstUnit(history);
    UnitsTile(history, 0);
    TileBounds(units, 0, |history|);
  }

  /** Fills the budget from the newest unit to the oldest, then forces the newest unit in. */
  method Fill(history: History, units: seq<Unit>, budget: int)
    returns (included: set<nat>, forced: bool, ghost keep: seq<bool>)
    requires history != [] && budget > 0 && units == UnitsFrom(history, 0)
    ensures Covers(units, keep, included)
    ensures units != [] && keep[|units| - 1] && (history[0].role == System ==> keep[0])
    ensures DropsOverflow(Weights(history, units), SystemTokens(history), keep, 0, budget)
    ensures !forced && SystemTokens(history) <= budget ==> Kept(Weights(history, units), keep, 0) <= budget
    ensures forced ==> units[|units| - 1].end <= |history|
                       && SystemTokens(history) + UnitTokens(history, units[|units| - 1]) > budget
  {
    WeightsOf(history, units);
    ghost var w, sys := Weights(history, units), history[0].role == System;
    var anchored, start, anchors := Anchor(history, units, budget);
    var filled, used, kept := FillBackward(history, units, budget, w, sys, anchored, start, anchors);
    included, forced, keep := filled, false, kept;
    var lastIdx := |history| - 1;
    ghost var n := |units| - 1;
    assert units[n].start <= lastIdx < units[n].end;
    if lastIdx !in included {
      NewestOverflows(w, sys, keep, used, budget);
      var more, _ := IncludeUnit(history, units, keep, |units| - 1, included, used);
      included, keep := more, keep[n := true];
      forced := true;
    }
  }

  lemma {:induction false} TokensAdd(ms: History, m: Message)
    ensures Tokens(ms + [m]) == Tokens(ms) + MessageTokens(m)
  {
    assert (ms + [m])[..|ms|] == ms;
  }

  method TotalTokens(history: History) returns (total: nat)
    ensures total == Tokens(history)
  {
    total := 0;
    for i := 0 to |history|
      invariant total == Tokens(history[..i])
    {
      assert history[..i + 1][..i] == history[..i];
      total := total + MessageTokens(history[i]);
    }
    assert history[..|history|] == history;
  }

  /** The included messages, with the tokens on both sides. */
  method Assemble(history: History, included: set<nat>)
    returns (packed: History, includedTokens: nat, skippedTokens: nat)
    ensures packed == Filtered(history, included, 0, |history|)
    ensures includedTokens == Tokens(packed) && includedTokens + skippedTokens == Tokens(history)
  {
    includedTokens, skippedTokens := 0, 0;
    packed := [];
    for i := 0 to |history|
      invariant packed == Filtered(history, included, 0, i)
      invariant includedTokens == Tokens(packed)
      invariant includedTokens + skippedTokens == Tokens(history[..i])
    {
      TokensSnoc(history, 0, i);
      assert history[0..i] == history[..i] && history[0..i + 1] == history[..i + 1];
      if i in included {
        TokensAdd(packed, history[i]);
        packed := packed + [history[i]];
        includedTokens := includedTokens + MessageTokens(history[i]);
      } else {
        skippedTokens := skippedTokens + MessageTokens(history[i]);
      }
    }
    assert history[..|history|] == history;
  }

  lemma {:induction false} WholeOk(h: History, budget: int, total: nat, us: seq<Unit>, keep: seq<bool>)
    requires us == UnitsFrom(h, 0) && keep == seq(|us|, _ => true) && total == Tokens(h) && total <= budget
    ensures PackOk(h, budget, h, Report(budget, total, 0, |h|, 0, false), us, keep)
  {
    PickedAll(h, 0, keep);
    assert h[0..] == h;
  }

  /** packPromptHistory. */
  method PackPromptHistory(history: History, inputBudget: int)
    returns (packed: History, report: Report, ghost units: seq<Unit>, ghost keep: seq<bool>)
    ensures PackOk(history, Budget(inputBudget), packed, report, units, keep)
  {
    units := UnitsFrom(history, 0);
    keep := seq(|units|, _ => true);
    var budget := if inputBudget <= 0 then 1 else inputBudget;
    if |history| == 0 {
      WholeOk(history, budget, 0, units, keep);
      return history, Report(budget, 0, 0, 0, 0, false), units, keep;
    }
    var total := TotalTokens(history);
    if total <= budget {
      WholeOk(history, budget, total, units, keep);
      return history, Report(budget, total, 0, |history|, 0, false), units, keep;
    }
    packed, report, keep := PackByUnits(history, budget);
  }

  method PackByUnits(history: History, budget: int) returns (packed: History, report: Report, ghost keep: seq<bool>)
    requires history != [] && budget > 0
    ensures PackOk(history, budget, packed, report, UnitsFrom(history, 0), keep)
  {
    var units := ToolPairUnits(history);
    var included, forced, kept := Fill(history, units, budget);
    keep := kept;
    var packedMessages, includedTokens, skippedTokens := Assemble(history, included);
    packed := packedMessages;
    AssembledIsPicked(history, units, keep, included);
    report := Report(budget, includedTokens, skippedTokens, |packed|, |history| - |packed|, forced);
  }

  lemma {:induction false} AssembledIsPicked(h: History, us: seq<Unit>, keep: seq<bool>, included: set<nat>)
    requires us == UnitsFrom(h, 0) && Covers(us, keep, included)
    ensures var packed := Filtered(h, included, 0, |h|);
            packed == Picked(h, us, keep) && Tokens(packed) == Kept(Weights(h, us), keep, 0) && |packed| <= |h|
  {
    UnitsTile(h, 0);
    FilteredPicks(h, us, keep, included, 0);
    PickedTokens(h, us, keep, 0);
    assert us[0..] == us && keep[0..] == keep;
    FilteredShorter(h, included, 0, |h|);
  }

  lemma {:induction false} FilteredShorter(h: History, included: set<nat>, lo: nat, hi: nat)
    requires lo <= hi <= |h|
    ensures |Filtered(h, included, lo, hi)| <= hi - lo
    decreases hi - lo
  {
    if lo < hi { FilteredShorter(h, included, lo, hi - 1); }
  }

  // ----- Pairing -----

  lemma {:induction false} SliceSlice(h: History, i: nat, k: nat)
    requires i + k <= |h|
    ensures h[i..][k..] == h[i + k..] && h[i..][..k] == h[i..i + k]
  {
  }

  /** The first message of a paired history, with its results, is paired, and so is the rest. */
  lemma {:induction false} PairedFirst(ms: History)
    requires ms != [] && Paired(ms)
    ensures HeadOk(ms) && Paired(ms[..1 + CallCount(ms[0])]) && Paired(ms[1 + CallCount(ms[0])..])
  {
    var k := CallCount(ms[0]);
    var head := ms[..1 + k];
    assert HeadOk(head) && head[1 + k..] == [];
  }

  /** In a paired history a unit is a message together with exactly its results. */
  lemma {:induction false} UnitIsTurn(h: History, i: nat, rest: History)
    requires i < |h| && rest == h[i..] && Paired(rest)
    ensures UnitEnd(h, i) == i + 1 + CallCount(h[i])
  {
    var k := CallCount(h[i]);
    PairedFirst(rest);
    forall j | 0 <= j < |rest| ensures rest[j] == h[i + j] { }
    forall j | i + 1 <= j < i + 1 + k ensures h[j].role == Tool { assert h[j] == rest[j - i]; }
    if i + 1 + k < |h| { assert rest[1 + k..][0] == h[i + 1 + k]; }
    if k > 0 { RunEndIs(h, i + 1, i + 1 + k); }
  }

  lemma {:induction false} RunEndIs(h: History, i: nat, e: nat)
    requires i <= e <= |h| && forall j :: i <= j < e ==> h[j].role == Tool
    requires e < |h| ==> h[e].role != Tool
    ensures ToolRunEnd(h, i) == e
    decreases e - i
  {
    if i < e { RunEndIs(h, i + 1, e); }
  }

  lemma {:induction false} UnitParts(h: History, i: nat, rest: History, k: nat)
    requires i < |h| && rest == h[i..] && Paired(rest) && k == 1 + CallCount(h[i])
    ensures k <= |rest| && rest[0] == h[i]
    ensures Slice(h, Unit(i, UnitEnd(h, i))) == rest[..k] && h[UnitEnd(h, i)..] == rest[k..]
  {
    UnitIsTurn(h, i, rest);
    SliceSlice(h, i, k);
  }

  lemma {:induction false} UnitPaired(h: History, i: nat, rest: History)
    requires i < |h| && rest == h[i..] && Paired(rest)
    ensures Paired(Slice(h, Unit(i, UnitEnd(h, i)))) && Paired(h[UnitEnd(h, i)..])
  {
    UnitParts(h, i, rest, 1 + CallCount(h[i]));
    PairedFirst(rest);
  }

  lemma {:induction false} UnitsPaired(h: History, i: nat)
    requires i <= |h| && Paired(h[i..])
    ensures forall k :: 0 <= k < |UnitsFrom(h, i)| ==> Paired(Slice(h, UnitsFrom(h, i)[k]))
    decreases |h| - i
  {
    if i < |h| {
      UnitPaired(h, i, h[i..]);
      UnitsPaired(h, UnitEnd(h, i));
    }
  }

  lemma {:induction false} PickedPaired(h: History, us: seq<Unit>, keep: seq<bool>)
    requires |keep| == |us| && forall k :: 0 <= k < |us| ==> Paired(Slice(h, us[k]))
    ensures Paired(Picked(h, us, keep))
  {
    if us != [] {
      PickedPaired(h, us[1..], keep[1..]);
      PairedConcat(if keep[0] then Slice(h, us[0]) else [], Picked(h, us[1..], keep[1..]));
    }
  }

  /** Packing keeps a paired history paired. */
  lemma {:induction false} PackPaired(h: History, budget: int, packed: History, report: Report, us: seq<Unit>,
                                      keep: seq<bool>)
    requires Paired(h) && PackOk(h, budget, packed, report, us, keep)
    ensures Paired(packed)
  {
    assert h[0..] == h;
    UnitsPaired(h, 0);
    PickedPaired(h, us, keep);
  }
}
