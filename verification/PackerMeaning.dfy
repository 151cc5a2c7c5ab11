/** What packing a history means for its messages, one by one (internal/agent/prompt_packer.go). */
module PackerMeaning {
  import opened Conversation
  import opened Packer

  /** The message is a tool result that belongs to the calls before it. */
  ghost predicate IsResult(h: History, i: nat)
    requires i < |h|
  {
    exists j :: 0 <= j < i && h[j].role == Assistant && h[j].toolCalls != []
                && forall m :: j < m <= i ==> h[m].role == Tool
  }

  /** The group of messages from i to e: one message and the results that belong to it. */
  ghost predicate IsGroup(h: History, i: nat, e: nat) {
    && i < e <= |h| && !IsResult(h, i)
    && (forall m :: i < m < e ==> IsResult(h, m))
    && (e < |h| ==> !IsResult(h, e))
  }

  // ----- Units are groups -----

  lemma {:induction false} ResultFollows(h: History, i: nat)
    requires i < |h|
    ensures IsResult(h, i) <==>
            h[i].role == Tool && i > 0
            && (IsResult(h, i - 1) || (h[i - 1].role == Assistant && h[i - 1].toolCalls != []))
  {
    if IsResult(h, i) {
      var j :| 0 <= j < i && h[j].role == Assistant && h[j].toolCalls != []
               && forall m :: j < m <= i ==> h[m].role == Tool;
      assert j < i - 1 ==> IsResult(h, i - 1);
    }
    if h[i].role == Tool && i > 0 && IsResult(h, i - 1) {
      var j :| 0 <= j < i - 1 && h[j].role == Assistant && h[j].toolCalls != []
               && forall m :: j < m <= i - 1 ==> h[m].role == Tool;
      assert forall m :: j < m <= i ==> h[m].role == Tool;
    }
  }

  lemma {:induction false} UnitIsGroup(h: History, i: nat)
    requires i < |h| && !IsResult(h, i)
    ensures IsGroup(h, i, UnitEnd(h, i))
  {
    var e := UnitEnd(h, i);
    forall m | i < m < e ensures IsResult(h, m) {
      assert forall n :: i < n <= m ==> h[n].role == Tool;
    }
    if e < |h| { ResultFollows(h, e); }
  }

  lemma {:induction false} SameGroup(h: History, i: nat, e: nat, f: nat)
    requires IsGroup(h, i, e) && IsGroup(h, i, f)
    ensures e == f
  {
    var m := if e < f then e else f;
    var inside := m < |h| && IsResult(h, m);
  }

  lemma {:induction false} UnitsAreGroups(h: History, i: nat)
    requires i <= |h| && (i < |h| ==> !IsResult(h, i))
    ensures forall k :: 0 <= k < |UnitsFrom(h, i)| ==> IsGroup(h, UnitsFrom(h, i)[k].start, UnitsFrom(h, i)[k].end)
    decreases |h| - i
  {
    if i < |h| {
      UnitIsGroup(h, i);
      UnitsAreGroups(h, UnitEnd(h, i));
    }
  }

  // ----- Places -----

  function Between(a: nat, b: nat): (r: seq<nat>)
    requires a <= b
    ensures |r| == b - a && forall k :: 0 <= k < |r| ==> r[k] == a + k
  {
    seq(b - a, k => a + k)
  }

  function Part(u: Unit, kept: bool): seq<nat> {
    if kept && u.start <= u.end then Between(u.start, u.end) else []
  }

  /** The places of the messages of the kept units. */
  function Places(us: seq<Unit>, keep: seq<bool>): seq<nat>
    requires |keep| == |us|
  {
    if us == [] then [] else Part(us[0], keep[0]) + Places(us[1..], keep[1..])
  }

  predicate Grows(places: seq<nat>) {
    forall j, k :: 0 <= j < k < |places| ==> places[j] < places[k]
  }

  /** The list holds the messages at these places. */
  predicate Holds(h: History, places: seq<nat>, ms: History) {
    |ms| == |places| && forall j :: 0 <= j < |places| ==> places[j] < |h| && ms[j] == h[places[j]]
  }

  lemma {:induction false} HoldsConcat(h: History, a: seq<nat>, x: History, b: seq<nat>, y: History)
    requires Holds(h, a, x) && Holds(h, b, y)
    ensures Holds(h, a + b, x + y)
  {
  }

  lemma {:induction false} GrowsConcat(a: seq<nat>, b: seq<nat>, lo: nat, mid: nat, hi: nat)
    requires lo <= mid <= hi && Grows(a) && Grows(b)
    requires (forall p :: p in a ==> lo <= p < mid) && forall p :: p in b ==> mid <= p < hi
    ensures Grows(a + b) && forall p :: p in a + b ==> lo <= p < hi
  {
    var c := a + b;
    forall j, k | 0 <= j < k < |c| ensures c[j] < c[k] {
      assert if j < |a| then c[j] in a else c[j] in b;
      assert if k < |a| then c[k] in a else c[k] in b;
    }
  }

  lemma {:induction false} PlacesGrow(us: seq<Unit>, keep: seq<bool>, i: nat, n: nat)
    requires |keep| == |us| && Tiles(us, i, n)
    ensures Grows(Places(us, keep)) && forall p :: p in Places(us, keep) ==> i <= p < n
    decreases |us|
  {
    if us != [] {
      TileBounds(us, i, n);
      PlacesGrow(us[1..], keep[1..], us[0].end, n);
      GrowsConcat(Part(us[0], keep[0]), Places(us[1..], keep[1..]), i, us[0].end, n);
    }
  }

  lemma {:induction false} PartHolds(h: History, u: Unit, kept: bool)
    requires u.start <= u.end <= |h|
    ensures Holds(h, Part(u, kept), if kept then Slice(h, u) else [])
  {
  }

  lemma {:induction false} PickedIsAt(h: History, us: seq<Unit>, keep: seq<bool>, i: nat)
    requires |keep| == |us| && Tiles(us, i, |h|)
    ensures Holds(h, Places(us, keep), Picked(h, us, keep))
    decreases |us|
  {
    if us != [] {
      TileBounds(us, i, |h|);
      PickedIsAt(h, us[1..], keep[1..], us[0].end);
      PartHolds(h, us[0], keep[0]);
      HoldsConcat(h, Part(us[0], keep[0]), if keep[0] then Slice(h, us[0]) else [], Places(us[1..], keep[1..]),
                  Picked(h, us[1..], keep[1..]));
    }
  }

  lemma {:induction false} PartHas(u: Unit, kept: bool, p: nat)
    requires u.start <= u.end
    ensures p in Part(u, kept) <==> kept && u.start <= p < u.end
  {
    if kept && u.start <= p < u.end { assert Part(u, kept)[p - u.start] == p; }
  }

  lemma {:induction false} PlacesAre(us: seq<Unit>, keep: seq<bool>, i: nat, n: nat, k: nat, p: nat)
    requires |keep| == |us| && Tiles(us, i, n) && k < |us| && us[k].start <= p < us[k].end
    ensures p in Places(us, keep) <==> keep[k]
    decreases |us|
  {
    TileBounds(us, i, n);
    PlacesGrow(us[1..], keep[1..], us[0].end, n);
    PartHas(us[0], keep[0], p);
    assert p in Places(us, keep) <==> p in Part(us[0], keep[0]) || p in Places(us[1..], keep[1..]);
    if k > 0 { PlacesAre(us[1..], keep[1..], us[0].end, n, k - 1, p); }
  }

  lemma {:induction false} PlacesSplit(us: seq<Unit>, keep: seq<bool>, k: nat)
    requires |keep| == |us| && k <= |us|
    ensures Places(us, keep) == Places(us[..k], keep[..k]) + Places(us[k..], keep[k..])
    decreases |us|
  {
    if k > 0 {
      PlacesSplit(us[1..], keep[1..], k - 1);
      assert us[..k][1..] == us[1..][..k - 1] && keep[..k][1..] == keep[1..][..k - 1];
      assert us[1..][k - 1..] == us[k..] && keep[1..][k - 1..] == keep[k..];
    } else {
      assert us[..0] == [] && us[0..] == us && keep[0..] == keep;
    }
  }

  lemma {:induction false} TilesSplit(us: seq<Unit>, i: nat, n: nat, k: nat)
    requires Tiles(us, i, n) && k < |us|
    ensures Tiles(us[..k + 1], i, us[k].end) && Tiles(us[k + 1..], us[k].end, n)
    decreases |us|
  {
    if k > 0 {
      TilesSplit(us[1..], us[0].end, n, k - 1);
      assert us[..k + 1][1..] == us[1..][..k] && us[1..][k..] == us[k + 1..];
    } else {
      assert us[..1][1..] == [];
    }
  }

  lemma {:induction false} UnitOf(us: seq<Unit>, i: nat, n: nat, p: nat) returns (k: nat)
    requires Tiles(us, i, n) && i <= p < n
    ensures k < |us| && us[k].start <= p < us[k].end
    decreases |us|
  {
    if p < us[0].end {
      k := 0;
    } else {
      k := UnitOf(us[1..], us[0].end, n, p);
      k := k + 1;
    }
  }

  // ----- What is kept -----

  /** The weight of one message: a quarter of its runes, with 32 for itself and 120 for each of its calls. */
  lemma {:induction false} TokensOfOne(m: Message)
    ensures Tokens([m]) == (|m.content| + |m.thinking| + 32 + |m.toolCalls| * 120) / 4
  {
    assert [m][..0] == [];
  }

  /** The weight of a leading system message, which is kept whatever else is. */
  function SystemWeight(h: History): nat {
    if h != [] && h[0].role == System then Tokens(h[..1]) else 0
  }

  lemma {:induction false} SystemWeightIs(h: History)
    ensures SystemWeight(h) == SystemTokens(h)
  {
    if h != [] {
      assert h[..1] == [h[0]];
      TokensOfOne(h[0]);
    }
  }

  /** The packed messages stand at these places of the history, in order; the newest and a leading system
      message are among them, and a tool result if and only if the message before it is. */
  ghost predicate KeepsGroups(h: History, places: seq<nat>, packed: History) {
    && Grows(places) && Holds(h, places, packed)
    && (h != [] ==> |h| - 1 in places && (h[0].role == System ==> 0 in places))
    && (forall i: nat :: 0 < i < |h| && IsResult(h, i) ==> (i in places <==> i - 1 in places))
  }

  /** A group that is left out would not fit into the budget, next to the system message and the newer
      messages that are kept. */
  ghost predicate LeavesOutLittle(h: History, places: seq<nat>, packed: History, budget: int) {
    forall i: nat, e: nat :: IsGroup(h, i, e) && i !in places ==> Overflows(h, places, packed, budget, i, e)
  }

  ghost predicate Overflows(h: History, places: seq<nat>, packed: History, budget: int, i: nat, e: nat)
    requires i <= e <= |h|
  {
    exists c :: 0 <= c <= |packed| == |places| && (forall j :: 0 <= j < |places| ==> (j < c <==> places[j] < e))
                && SystemWeight(h) + Tokens(packed[c..]) + Tokens(h[i..e]) > budget
  }

  lemma {:induction false} GroupsStay(h: History, us: seq<Unit>, keep: seq<bool>, i: nat)
    requires us == UnitsFrom(h, 0) && |keep| == |us| && Tiles(us, 0, |h|) && 0 < i < |h| && IsResult(h, i)
    ensures i in Places(us, keep) <==> i - 1 in Places(us, keep)
  {
    if 0 < |h| { NoResultFirst(h); }
    UnitsAreGroups(h, 0);
    TileBounds(us, 0, |h|);
    var k := UnitOf(us, 0, |h|, i);
    assert IsGroup(h, us[k].start, us[k].end);
    PlacesAre(us, keep, 0, |h|, k, i);
    PlacesAre(us, keep, 0, |h|, k, i - 1);
  }

  lemma {:induction false} NoResultFirst(h: History)
    requires h != []
    ensures !IsResult(h, 0)
  {
  }

  lemma {:induction false} GroupIsUnit(h: History, us: seq<Unit>, i: nat, e: nat) returns (k: nat)
    requires us == UnitsFrom(h, 0) && Tiles(us, 0, |h|) && IsGroup(h, i, e)
    ensures k < |us| && us[k] == Unit(i, e)
  {
    NoResultFirst(h);
    UnitsAreGroups(h, 0);
    TileBounds(us, 0, |h|);
    k := UnitOf(us, 0, |h|, i);
    assert IsGroup(h, us[k].start, us[k].end);
    assert us[k].start == i;
    SameGroup(h, i, e, us[k].end);
  }

  /** The places behind a left-out unit begin a suffix of the packed messages. */
  lemma {:induction false} LaterPlaces(h: History, us: seq<Unit>, keep: seq<bool>, k: nat) returns (c: nat)
    requires |keep| == |us| && Tiles(us, 0, |h|) && k < |us|
    ensures var places := Places(us, keep);
      && c <= |places| && places[c..] == Places(us[k + 1..], keep[k + 1..])
      && forall j :: 0 <= j < |places| ==> (j < c <==> places[j] < us[k].end)
  {
    var e := us[k].end;
    TilesSplit(us, 0, |h|, k);
    PlacesSplit(us, keep, k + 1);
    var a, b := Places(us[..k + 1], keep[..k + 1]), Places(us[k + 1..], keep[k + 1..]);
    PlacesGrow(us[..k + 1], keep[..k + 1], 0, e);
    PlacesGrow(us[k + 1..], keep[k + 1..], e, |h|);
    c := |a|;
    var places := Places(us, keep);
    forall j | 0 <= j < |places| ensures j < c <==> places[j] < e {
      assert if j < c then places[j] == a[j] && a[j] in a else places[j] == b[j - c] && b[j - c] in b;
    }
  }

  lemma {:induction false} SameMessages(h: History, places: seq<nat>, a: History, b: History)
    requires Holds(h, places, a) && Holds(h, places, b)
    ensures a == b
  {
  }

  lemma {:induction false} LaterMessages(h: History, us: seq<Unit>, keep: seq<bool>, packed: History, k: nat, c: nat)
    requires |keep| == |us| && Tiles(us, 0, |h|) && k < |us| && packed == Picked(h, us, keep)
    requires c <= |Places(us, keep)| && Places(us, keep)[c..] == Places(us[k + 1..], keep[k + 1..])
    ensures |packed| == |Places(us, keep)| && packed[c..] == Picked(h, us[k + 1..], keep[k + 1..])
  {
    TilesSplit(us, 0, |h|, k);
    PickedIsAt(h, us, keep, 0);
    PickedIsAt(h, us[k + 1..], keep[k + 1..], us[k].end);
    var places := Places(us, keep);
    assert Holds(h, places[c..], packed[c..]);
    SameMessages(h, places[c..], packed[c..], Picked(h, us[k + 1..], keep[k + 1..]));
  }

  lemma {:induction false} LeftOutOverflows(h: History, us: seq<Unit>, keep: seq<bool>, packed: History, budget: int,
                                            k: nat)
    requires us == UnitsFrom(h, 0) && |keep| == |us| && Tiles(us, 0, |h|) && packed == Picked(h, us, keep)
    requires DropsOverflow(Weights(h, us), SystemTokens(h), keep, 0, budget) && k < |us| && !keep[k]
    requires us[k].end <= |h| && us[k].start <= us[k].end
    ensures Overflows(h, Places(us, keep), packed, budget, us[k].start, us[k].end)
  {
    var c := LaterPlaces(h, us, keep, k);
    LaterMessages(h, us, keep, packed, k, c);
    PickedTokens(h, us, keep, k + 1);
    SystemWeightIs(h);
    assert SystemWeight(h) + Tokens(packed[c..]) + Tokens(h[us[k].start..us[k].end]) > budget;
  }

  lemma {:induction false} NewestGroup(h: History, us: seq<Unit>)
    requires us == UnitsFrom(h, 0) && Tiles(us, 0, |h|) && us != []
    ensures var i := us[|us| - 1].start;
      IsGroup(h, i, |h|) && Slice(h, us[|us| - 1]) == h[i..]
  {
    TileBounds(us, 0, |h|);
    NoResultFirst(h);
    UnitsAreGroups(h, 0);
    assert IsGroup(h, us[|us| - 1].start, us[|us| - 1].end);
  }

  /** A packed prompt, message by message. When it is over the budget, the system message or the newest
      group, which are kept in any case, do not fit into it. */
  lemma {:induction false} PackedMeans(h: History, budget: int, packed: History, report: Report, us: seq<Unit>,
                                       keep: seq<bool>) returns (places: seq<nat>)
    requires PackOk(h, budget, packed, report, us, keep)
    ensures KeepsGroups(h, places, packed) && LeavesOutLittle(h, places, packed, budget)
    ensures Tokens(packed) > budget ==>
      SystemWeight(h) > budget || exists i: nat :: IsGroup(h, i, |h|) && SystemWeight(h) + Tokens(h[i..]) > budget
  {
    UnitsTile(h, 0);
    places := Places(us, keep);
    PlacesGrow(us, keep, 0, |h|);
    PickedIsAt(h, us, keep, 0);
    SystemWeightIs(h);
    if h != [] { EndsAreKept(h, us, keep); }
    if report.forced { NewestGroup(h, us); }
    forall i: nat | 0 < i < |h| && IsResult(h, i) ensures i in places <==> i - 1 in places {
      GroupsStay(h, us, keep, i);
    }
    forall i: nat, e: nat | IsGroup(h, i, e) && i !in places ensures Overflows(h, places, packed, budget, i, e) {
      var k := GroupIsUnit(h, us, i, e);
      PlacesAre(us, keep, 0, |h|, k, i);
      LeftOutOverflows(h, us, keep, packed, budget, k);
    }
  }

  lemma {:induction false} EndsAreKept(h: History, us: seq<Unit>, keep: seq<bool>)
    requires h != [] && us == UnitsFrom(h, 0) && |keep| == |us| && Tiles(us, 0, |h|)
    requires keep[|us| - 1] && (h[0].role == System ==> keep[0])
    ensures |h| - 1 in Places(us, keep) && (h[0].role == System ==> 0 in Places(us, keep))
  {
    TileBounds(us, 0, |h|);
    PlacesAre(us, keep, 0, |h|, |us| - 1, |h| - 1);
    PlacesAre(us, keep, 0, |h|, 0, 0);
  }
}
