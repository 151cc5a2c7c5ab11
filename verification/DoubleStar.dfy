/** The "**" expansion of internal/permissions/match.go: a pattern is tried in every form that
    drops some of its whole-segment "**". */
module DoubleStar {
  import opened Options
  import opened Wildcard

  const MAX_SEGMENTS: nat := 12

  // ----- Segments -----

  function Split(s: string): (r: seq<string>)
    ensures |r| > 0
  {
    if s == "" then [""]
    else
      var rest := Split(s[1..]);
      if s[0] == '/' then [""] + rest else [[s[0]] + rest[0]] + rest[1..]
  }

  function Join(segs: seq<string>): string {
    if |segs| == 0 then "" else if |segs| == 1 then segs[0] else segs[0] + "/" + Join(segs[1..])
  }

  lemma {:induction false} JoinSplit(s: string)
    ensures Join(Split(s)) == s
  {
    if s != "" {
      JoinSplit(s[1..]);
      var rest := Split(s[1..]);
      if s[0] == '/' {
        assert ([""] + rest)[1..] == rest;
        assert s == "/" + s[1..];
      } else {
        assert ([[s[0]] + rest[0]] + rest[1..])[1..] == rest[1..];
        assert s == [s[0]] + s[1..];
        if |rest| > 1 { assert Join(rest) == rest[0] + "/" + Join(rest[1..]); }
      }
    }
  }

  /** The segments that a choice keeps, in order. */
  function Keep(segs: seq<string>, keep: seq<bool>): (r: seq<string>)
    requires |keep| == |segs|
  {
    if segs == [] then []
    else (if keep[0] then [segs[0]] else []) + Keep(segs[1..], keep[1..])
  }

  /** Adjacent "**" segments collapsed into one; prev tells that the segment before is "**". */
  function Dedup(segs: seq<string>, prev: bool := false): seq<string> {
    if segs == [] then []
    else if segs[0] == "**" && prev then Dedup(segs[1..], true)
    else [segs[0]] + Dedup(segs[1..], segs[0] == "**")
  }

  // ----- What the expansion should mean -----

  /** The run of "**" at the head of segs keeps at least one of its segments. */
  predicate RunKept(segs: seq<string>, keep: seq<bool>)
    requires |keep| == |segs|
  {
    segs != [] && segs[0] == "**" && (keep[0] || RunKept(segs[1..], keep[1..]))
  }

  /** A choice drops only "**" segments, and drops a whole run of them at most among the first
      `runs` runs. */
  predicate Allowed(segs: seq<string>, keep: seq<bool>, prev: bool, runs: nat)
    requires |keep| == |segs|
  {
    segs == [] ||
    if segs[0] != "**" then keep[0] && Allowed(segs[1..], keep[1..], false, runs)
    else if prev then Allowed(segs[1..], keep[1..], true, runs)
    else (runs > 0 || RunKept(segs, keep)) && Allowed(segs[1..], keep[1..], true, if runs > 0 then runs - 1 else 0)
  }

  /** A choice drops only "**" segments. */
  predicate DropsOnlyStars(segs: seq<string>, keep: seq<bool>) {
    |keep| == |segs| && forall i :: 0 <= i < |segs| && segs[i] != "**" ==> keep[i]
  }

  function RunCount(segs: seq<string>, prev: bool := false): nat {
    if segs == [] then 0
    else (if segs[0] == "**" && !prev then 1 else 0) + RunCount(segs[1..], segs[0] == "**")
  }

  /** Dropping some of the pattern's "**" segments leaves a pattern whose language holds t. */
  ghost predicate SomeDropMatches(pattern: string, t: string) {
    exists keep :: DropsOnlyStars(Split(pattern), keep)
                && Matches(Join(Keep(Split(pattern), keep)), t)
  }

  ghost predicate SomeAllowedDropMatches(pattern: string, t: string) {
    exists keep :: |keep| == |Split(pattern)| && Allowed(Split(pattern), keep, false, MAX_SEGMENTS)
                && Matches(Join(Keep(Split(pattern), keep)), t)
  }

  // ----- What the code computes -----

  /** The positions below n that hold "**". */
  function StarPositions(segs: seq<string>, n: nat): (r: seq<nat>)
    requires n <= |segs|
    ensures forall b :: 0 <= b < |r| ==> r[b] < n && segs[r[b]] == "**"
  {
    if n == 0 then []
    else StarPositions(segs, n - 1) + (if segs[n - 1] == "**" then [n - 1] else [])
  }

  /** A form of the collapsed pattern: only the first twelve "**" may be missing. */
  predicate IsVariant(segs: seq<string>, keep: seq<bool>) {
    |keep| == |segs| &&
    forall i :: 0 <= i < |segs| && !keep[i] ==> segs[i] == "**" && |StarPositions(segs, i)| < MAX_SEGMENTS
  }

  ghost predicate GlobAccepts(pattern: string, t: string) {
    exists keep :: IsVariant(Dedup(Split(pattern)), keep)
                && Matches(Join(Keep(Dedup(Split(pattern)), keep)), t)
  }

  // ----- Bit masks -----

  function Pow2(n: nat): nat {
    if n == 0 then 1 else 2 * Pow2(n - 1)
  }

  predicate Bit(mask: nat, b: nat) {
    if b == 0 then mask % 2 == 1 else Bit(mask / 2, b - 1)
  }

  /** Every choice of bits is some mask. */
  lemma {:induction false} MaskOfBits(bits: seq<bool>) returns (mask: nat)
    ensures mask < Pow2(|bits|)
    ensures forall b :: 0 <= b < |bits| ==> Bit(mask, b) == bits[b]
  {
    if bits == [] {
      mask := 0;
    } else {
      var rest := MaskOfBits(bits[1..]);
      mask := 2 * rest + (if bits[0] then 1 else 0);
      assert mask / 2 == rest;
      forall b | 0 <= b < |bits| ensures Bit(mask, b) == bits[b] {
        if b > 0 { assert bits[1..][b - 1] == bits[b]; }
      }
    }
  }

  // ----- The expansion -----

  function KeepMask(n: nat, drop: set<nat>): (keep: seq<bool>)
    ensures |keep| == n && forall i :: 0 <= i < n ==> keep[i] == (i !in drop)
  {
    seq(n, i => i !in drop)
  }

  lemma {:induction false} KeepConcat(xs: seq<string>, ks: seq<bool>, ys: seq<string>, ls: seq<bool>)
    requires |ks| == |xs| && |ls| == |ys|
    ensures Keep(xs + ys, ks + ls) == Keep(xs, ks) + Keep(ys, ls)
  {
    if xs == [] {
      assert xs + ys == ys && ks + ls == ls;
    } else {
      KeepConcat(xs[1..], ks[1..], ys, ls);
      assert (xs + ys)[1..] == xs[1..] + ys && (ks + ls)[1..] == ks[1..] + ls;
    }
  }

  lemma {:induction false} KeepSnoc(segs: seq<string>, keep: seq<bool>, i: nat)
    requires |keep| == |segs| && i < |segs|
    ensures Keep(segs[..i + 1], keep[..i + 1]) == Keep(segs[..i], keep[..i]) + (if keep[i] then [segs[i]] else [])
  {
    assert segs[..i + 1] == segs[..i] + [segs[i]] && keep[..i + 1] == keep[..i] + [keep[i]];
    KeepConcat(segs[..i], keep[..i], [segs[i]], [keep[i]]);
    assert Keep([segs[i]][1..], [keep[i]][1..]) == [];
  }

  lemma {:induction false} DedupSnoc(segs: seq<string>, i: nat, prev: bool)
    requires i < |segs|
    ensures Dedup(segs[..i + 1], prev)
         == Dedup(segs[..i], prev)
          + (if segs[i] == "**" && (if i == 0 then prev else segs[i - 1] == "**") then [] else [segs[i]])
  {
    if i == 0 {
      assert segs[..1] == [segs[0]] && segs[..0] == [];
      assert [segs[0]][1..] == [];
    } else {
      DedupSnoc(segs[1..], i - 1, segs[0] == "**");
      assert segs[..i + 1][1..] == segs[1..][..i] && segs[..i][1..] == segs[1..][..i - 1];
      assert segs[..i + 1][0] == segs[0] == segs[..i][0];
    }
  }

  /** The collapsed list ends in "**" exactly when the list does. */
  lemma {:induction false} DedupLast(segs: seq<string>)
    requires segs != []
    ensures Dedup(segs) != []
    ensures Dedup(segs)[|Dedup(segs)| - 1] == "**" <==> segs[|segs| - 1] == "**"
  {
    var n := |segs| - 1;
    DedupSnoc(segs, n, false);
    assert segs[..n + 1] == segs;
    if n > 0 {
      DedupLast(segs[..n]);
    } else {
      assert segs[..0] == [];
    }
  }

  predicate ContainsDoubleStar(s: string) {
    exists k :: 0 <= k < |s| - 1 && s[k] == '*' && s[k + 1] == '*'
  }

  lemma {:induction false} SegmentsAreInside(segs: seq<string>, i: nat)
    requires i < |segs| && segs[i] == "**"
    ensures ContainsDoubleStar(Join(segs))
  {
    var j := Join(segs);
    if i == 0 {
      assert j[0] == '*' && j[1] == '*';
    } else {
      SegmentsAreInside(segs[1..], i - 1);
      var rest := Join(segs[1..]);
      var k :| 0 <= k < |rest| - 1 && rest[k] == '*' && rest[k + 1] == '*';
      var d := |segs[0]| + 1;
      assert j == segs[0] + "/" + rest;
      assert j[d + k] == '*' && j[d + k + 1] == '*';
    }
  }

  lemma {:induction false} NoStarsNoVariants(segs: seq<string>)
    requires forall i :: 0 <= i < |segs| ==> segs[i] != "**"
    ensures Dedup(segs) == segs
    ensures forall keep :: IsVariant(segs, keep) ==> Keep(segs, keep) == segs
    ensures exists keep :: IsVariant(segs, keep)
  {
    if segs == [] {
      assert IsVariant(segs, []);
    } else {
      NoStarsNoVariants(segs[1..]);
      forall keep | IsVariant(segs, keep) ensures Keep(segs, keep) == segs {
        assert IsVariant(segs[1..], keep[1..]);
        assert keep[0];
      }
      assert IsVariant(segs, seq(|segs|, _ => true));
    }
  }

  lemma {:induction false} PositionOf(segs: seq<string>, n: nat, i: nat)
    requires i < n <= |segs| && segs[i] == "**"
    ensures |StarPositions(segs, i)| < |StarPositions(segs, n)|
    ensures StarPositions(segs, n)[|StarPositions(segs, i)|] == i
    decreases n
  {
    if i < n - 1 { PositionOf(segs, n - 1, i); }
  }

  lemma {:induction false} RankOf(segs: seq<string>, n: nat, b: nat)
    requires n <= |segs| && b < |StarPositions(segs, n)|
    ensures |StarPositions(segs, StarPositions(segs, n)[b])| == b
    decreases n
  {
    if b < |StarPositions(segs, n - 1)| { RankOf(segs, n - 1, b); }
  }

  ghost predicate IsForm(segs: seq<string>, v: string) {
    exists keep :: IsVariant(segs, keep) && v == Join(Keep(segs, keep))
  }

  predicate IsDrop(starIdx: seq<nat>, mask: nat, drop: set<nat>) {
    (forall d :: d in drop ==> exists b :: 0 <= b < |starIdx| && starIdx[b] == d && Bit(mask, b)) &&
    (forall b :: 0 <= b < |starIdx| && Bit(mask, b) ==> starIdx[b] in drop)
  }

  /** The drop set of a mask gives one of the forms. */
  lemma {:induction false} DropIsVariant(segs: seq<string>, starIdx: seq<nat>, mask: nat, drop: set<nat>)
    requires starIdx <= StarPositions(segs, |segs|) && |starIdx| <= MAX_SEGMENTS && IsDrop(starIdx, mask, drop)
    ensures IsVariant(segs, KeepMask(|segs|, drop))
  {
    forall i | 0 <= i < |segs| && i in drop
      ensures segs[i] == "**" && |StarPositions(segs, i)| < MAX_SEGMENTS
    {
      var b :| 0 <= b < |starIdx| && starIdx[b] == i && Bit(mask, b);
      RankOf(segs, |segs|, b);
    }
  }

  /** Every form is the form of some mask. */
  lemma {:induction false} VariantHasMask(segs: seq<string>, starIdx: seq<nat>, keep: seq<bool>) returns (mask: nat)
    requires IsVariant(segs, keep)
    requires starIdx <= StarPositions(segs, |segs|)
    requires var n := |StarPositions(segs, |segs|)|; |starIdx| == if n < MAX_SEGMENTS then n else MAX_SEGMENTS
    ensures mask < Pow2(|starIdx|)
    ensures forall drop :: IsDrop(starIdx, mask, drop) ==> KeepMask(|segs|, drop) == keep
  {
    var bits := seq(|starIdx|, b requires 0 <= b < |starIdx| => !keep[starIdx[b]]);
    mask := MaskOfBits(bits);
    forall drop | IsDrop(starIdx, mask, drop) ensures KeepMask(|segs|, drop) == keep {
      forall i | 0 <= i < |segs| ensures keep[i] == (i !in drop) {
        if !keep[i] {
          PositionOf(segs, |segs|, i);
          assert starIdx[|StarPositions(segs, i)|] == i;
          assert bits[|StarPositions(segs, i)|];
        } else {
          forall b | 0 <= b < |starIdx| && starIdx[b] == i ensures !Bit(mask, b) {
            assert bits[b] == !keep[i];
          }
        }
      }
    }
  }

  method Collapse(all: seq<string>) returns (segs: seq<string>)
    ensures segs == Dedup(all)
  {
    segs := [];
    for i := 0 to |all|
      invariant segs == Dedup(all[..i])
    {
      DedupSnoc(all, i, false);
      if i > 0 { DedupLast(all[..i]); }
      if all[i] == "**" && |segs| > 0 && segs[|segs| - 1] == "**" {
        continue;
      }
      segs := segs + [all[i]];
    }
    assert all[..|all|] == all;
  }

  method StarIndices(segs: seq<string>) returns (starIdx: seq<nat>)
    ensures starIdx == StarPositions(segs, |segs|)
  {
    starIdx := [];
    for i := 0 to |segs|
      invariant starIdx == StarPositions(segs, i)
    {
      if segs[i] == "**" {
        starIdx := starIdx + [i];
      }
    }
  }

  /** doubleStarVariants: exactly the forms of the collapsed pattern. */
  method DoubleStarVariants(pattern: string) returns (variants: seq<string>)
    ensures forall v :: v in variants <==> IsForm(Dedup(Split(pattern)), v)
  {
    var all := Split(pattern);
    JoinSplit(pattern);
    if !ContainsDoubleStar(pattern) {
      NoSegmentIsStar(all);
      NoStarsNoVariants(all);
      return [pattern];
    }
    var segs := Collapse(all);
    var starIdx := StarIndices(segs);
    if |starIdx| == 0 {
      NoPositionsNoStars(segs);
      NothingCollapsed(all);
      NoStarsNoVariants(segs);
      return [pattern];
    }
    if |starIdx| > MAX_SEGMENTS {
      starIdx := starIdx[..MAX_SEGMENTS];
    }
    variants := [];
    for mask := 0 to Pow2(|starIdx|)
      invariant forall v :: v in variants ==> IsForm(segs, v)
      invariant HasMasks(segs, starIdx, mask, variants)
    {
      var drop := DropSet(starIdx, mask);
      var kept := KeepLoop(segs, drop);
      DropIsVariant(segs, starIdx, mask, drop);
      OneMoreMask(segs, starIdx, mask, variants, drop);
      variants := variants + [Join(kept)];
    }
    AllMasksAllForms(segs, starIdx, variants);
  }

  /** The forms of the first `masks` bit masks are there. */
  ghost predicate HasMasks(segs: seq<string>, starIdx: seq<nat>, masks: nat, variants: seq<string>) {
    forall m, drop :: 0 <= m < masks && IsDrop(starIdx, m, drop)
                      ==> Join(Keep(segs, KeepMask(|segs|, drop))) in variants
  }

  lemma {:induction false} OneMoreMask(segs: seq<string>, starIdx: seq<nat>, mask: nat, variants: seq<string>,
                                       drop: set<nat>)
    requires HasMasks(segs, starIdx, mask, variants) && IsDrop(starIdx, mask, drop)
    ensures HasMasks(segs, starIdx, mask + 1, variants + [Join(Keep(segs, KeepMask(|segs|, drop)))])
  {
    var more := variants + [Join(Keep(segs, KeepMask(|segs|, drop)))];
    forall m, drop' | 0 <= m < mask + 1 && IsDrop(starIdx, m, drop')
      ensures Join(Keep(segs, KeepMask(|segs|, drop'))) in more
    {
      if m == mask {
        assert drop' == drop && more[|variants|] in more;
      } else {
        assert Join(Keep(segs, KeepMask(|segs|, drop'))) in variants;
      }
    }
  }

  lemma {:induction false} AllMasksAllForms(segs: seq<string>, starIdx: seq<nat>, variants: seq<string>)
    requires HasMasks(segs, starIdx, Pow2(|starIdx|), variants)
    requires starIdx <= StarPositions(segs, |segs|)
    requires var n := |StarPositions(segs, |segs|)|; |starIdx| == if n < MAX_SEGMENTS then n else MAX_SEGMENTS
    ensures forall v :: IsForm(segs, v) ==> v in variants
  {
    forall v | IsForm(segs, v) ensures v in variants {
      var keep :| IsVariant(segs, keep) && v == Join(Keep(segs, keep));
      var m := VariantHasMask(segs, starIdx, keep);
      var drop := DropSetOf(starIdx, m);
    }
  }

  function DropSetOf(starIdx: seq<nat>, mask: nat): (drop: set<nat>)
    ensures IsDrop(starIdx, mask, drop)
  {
    set b | 0 <= b < |starIdx| && Bit(mask, b) :: starIdx[b]
  }

  method DropSet(starIdx: seq<nat>, mask: nat) returns (drop: set<nat>)
    ensures IsDrop(starIdx, mask, drop)
  {
    drop := {};
    for b := 0 to |starIdx|
      invariant IsDrop(starIdx[..b], mask, drop)
    {
      ghost var before := drop;
      if Bit(mask, b) {
        drop := drop + {starIdx[b]};
      }
      assert starIdx[..b + 1][b] == starIdx[b];
      forall d | d in drop ensures exists c :: 0 <= c < b + 1 && starIdx[..b + 1][c] == d && Bit(mask, c) {
        if d in before {
          var c :| 0 <= c < b && starIdx[..b][c] == d && Bit(mask, c);
          assert starIdx[..b + 1][c] == d;
        }
      }
      forall c | 0 <= c < b + 1 && Bit(mask, c) ensures starIdx[..b + 1][c] in drop {
        if c < b { assert starIdx[..b][c] in before; }
      }
    }
    assert starIdx[..|starIdx|] == starIdx;
  }

  method KeepLoop(segs: seq<string>, drop: set<nat>) returns (kept: seq<string>)
    ensures kept == Keep(segs, KeepMask(|segs|, drop))
  {
    ghost var mask := KeepMask(|segs|, drop);
    kept := [];
    for i := 0 to |segs|
      invariant kept == Keep(segs[..i], mask[..i])
    {
      KeepSnoc(segs, mask, i);
      if i !in drop {
        kept := kept + [segs[i]];
      }
    }
    assert segs[..|segs|] == segs && mask[..|segs|] == mask;
  }

  lemma {:induction false} NoSegmentIsStar(segs: seq<string>)
    requires !ContainsDoubleStar(Join(segs))
    ensures forall i :: 0 <= i < |segs| ==> segs[i] != "**"
  {
    forall i | 0 <= i < |segs| ensures segs[i] != "**" {
      if segs[i] == "**" { SegmentsAreInside(segs, i); }
    }
  }

  lemma {:induction false} NoPositionsNoStars(segs: seq<string>)
    requires StarPositions(segs, |segs|) == []
    ensures forall i :: 0 <= i < |segs| ==> segs[i] != "**"
  {
    forall i | 0 <= i < |segs| ensures segs[i] != "**" {
      if segs[i] == "**" { PositionOf(segs, |segs|, i); }
    }
  }

  lemma {:induction false} NothingCollapsed(segs: seq<string>)
    requires forall i :: 0 <= i < |Dedup(segs)| ==> Dedup(segs)[i] != "**"
    ensures Dedup(segs) == segs
  {
    if segs != [] {
      assert Dedup(segs)[0] == segs[0];
      forall i | 0 <= i < |Dedup(segs[1..])| ensures Dedup(segs[1..])[i] != "**" {
        assert Dedup(segs)[i + 1] == Dedup(segs[1..])[i];
      }
      NothingCollapsed(segs[1..]);
    }
  }

  /** globMatch: the pattern's language is the union over its forms. */
  method GlobMatch(pattern: string, target: string) returns (ok: bool)
    ensures ok <==> GlobAccepts(pattern, target)
  {
    var variants := DoubleStarVariants(pattern);
    for i := 0 to |variants|
      invariant forall k :: 0 <= k < i ==> !Matches(variants[k], target)
    {
      var matched, _ := WildcardMatch(variants[i], target);
      if matched {
        assert IsForm(Dedup(Split(pattern)), variants[i]);
        return true;
      }
    }
    ghost var segs := Dedup(Split(pattern));
    forall keep | IsVariant(segs, keep) ensures !Matches(Join(Keep(segs, keep)), target) {
      assert IsForm(segs, Join(Keep(segs, keep)));
    }
    return false;
  }
}
