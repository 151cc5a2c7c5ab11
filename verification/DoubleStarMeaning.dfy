/** Why collapsing adjacent "**" segments and trying the forms of the collapsed pattern loses
    nothing: the language of a pattern is reached by dropping some of its own "**" segments. */
module DoubleStarMeaning {
  import opened Options
  import opened Wildcard
  import opened DoubleStar

  // ----- Reading a pattern depends only on what is left of it -----

  /** What is left of p from k on is what is left of q from l on. */
  ghost predicate SameRest(p: string, k: nat, q: string, l: nat) {
    k <= |p| && l <= |q| && |p| - k == |q| - l && forall m :: k <= m < |p| ==> p[m] == q[m - k + l]
  }

  lemma {:induction false} SameSuffixMember(p: string, k: nat, q: string, l: nat)
    requires k < |p| && SameRest(p, k, q, l)
    ensures p[k] == q[l] && MemberEnd(p, k) - k == MemberEnd(q, l) - l && MemberRange(p, k) == MemberRange(q, l)
    ensures SameRest(p, MemberEnd(p, k), q, MemberEnd(q, l))
  {
    if k + 1 < |p| { assert p[k + 1] == q[l + 1]; }
    if k + 2 < |p| { assert p[k + 2] == q[l + 2]; }
    if k + 3 < |p| { assert p[k + 3] == q[l + 3]; }
  }

  /** Two parses of a class that agree up to their position in the pattern. */
  ghost predicate SameParse(a: Option<ClassBody>, k: nat, b: Option<ClassBody>, l: nat) {
    a.Some? == b.Some? &&
    (a.Some? ==> a.value.ranges == b.value.ranges && a.value.next - k == b.value.next - l)
  }

  lemma {:induction false} SameParseAfter(r: Range, a: Option<ClassBody>, k: nat, b: Option<ClassBody>, l: nat, n: nat)
    requires SameParse(a, k + n, b, l + n)
    ensures SameParse(After([r], a), k, After([r], b), l)
  {
  }

  lemma {:induction false} SameSuffixMembers(p: string, k: nat, q: string, l: nat, first: bool)
    requires SameRest(p, k, q, l)
    ensures SameParse(ClassMembers(p, k, first), k, ClassMembers(q, l, first), l)
    decreases |p| - k
  {
    if k == |p| {
    } else {
      SameSuffixMember(p, k, q, l);
      if p[k] == ']' && !first {
      } else {
        var n, r := MemberEnd(p, k) - k, MemberRange(p, k);
        SameSuffixMembers(p, k + n, q, l + n, false);
        SameParseAfter(r, ClassMembers(p, k + n, false), k, ClassMembers(q, l + n, false), l, n);
      }
    }
  }

  lemma {:induction false} SameSuffixClass(p: string, i: nat, q: string, l: nat)
    requires i < |p| && SameRest(p, i, q, l)
    ensures IsNegated(p, i) == IsNegated(q, l) && SameParse(ClassAt(p, i), i, ClassAt(q, l), l)
  {
    if i + 1 < |p| {
      assert p[i + 1] == q[l + 1];
      var n := if IsNegated(p, i) then 2 else 1;
      SameSuffixMembers(p, i + n, q, l + n, true);
    }
  }

  lemma {:induction false} SameSuffixToken(p: string, i: nat, q: string, l: nat)
    requires i < |p| && SameRest(p, i, q, l)
    ensures TokenAt(p, i) == TokenAt(q, l) && NextAt(p, i) - i == NextAt(q, l) - l
    ensures SameRest(p, NextAt(p, i), q, NextAt(q, l))
  {
    assert p[i] == q[l];
    if i + 1 < |p| { assert p[i + 1] == q[l + 1]; }
    if p[i] == '[' { SameSuffixClass(p, i, q, l); }
  }

  lemma {:induction false} SameSuffixAccepts(p: string, i: nat, q: string, l: nat, t: string, j: nat)
    requires SameRest(p, i, q, l) && j <= |t|
    ensures Accepts(p, i, t, j) == Accepts(q, l, t, j)
    decreases |p| - i + |t| - j
  {
    if i < |p| {
      SameSuffixToken(p, i, q, l);
      if TokenAt(p, i).Star? {
        SameSuffixAccepts(p, i + 1, q, l + 1, t, j);
        if j < |t| { SameSuffixAccepts(p, i, q, l, t, j + 1); }
      } else if j < |t| {
        SameSuffixAccepts(p, NextAt(p, i), q, NextAt(q, l), t, j + 1);
      }
    }
  }

  // ----- Two adjacent "**" against one -----

  /** The text before a "**" segment: empty, or ending in the separator. */
  predicate EndsSegment(pre: string) {
    pre == "" || pre[|pre| - 1] == '/'
  }

  /** A "**" segment and the text after it. */
  predicate StartsWithDoubleStar(tail: string) {
    |tail| >= 2 && tail[0] == '*' && tail[1] == '*' && (|tail| == 2 || tail[2] == '/')
  }

  /** The last rune is a backslash that no other backslash precedes. */
  predicate EndsEscaping(s: string) {
    s != "" && s[|s| - 1] == '\\' && (|s| == 1 || s[|s| - 2] != '\\')
  }

  /** The text ends in "x-/" with x above the separator: inside a class, an empty range, unless the dash
      is escaped. */
  predicate BackwardBefore(pre: string) {
    |pre| >= 3 && pre[|pre| - 2] == '-' && pre[|pre| - 3] > '/' && !EndsEscaping(pre[..|pre| - 2])
  }

  /** The text goes on with "/-y", y below the separator: inside a class, an empty range. */
  predicate BackwardAfter(tail: string) {
    |tail| >= 5 && tail[3] == '-' && tail[4] < '/'
  }

  /** A bracket that opens no negated class. */
  ghost predicate HasPlainBracket(s: string) {
    exists i :: 0 <= i < |s| && s[i] == '[' && !IsNegated(s, i)
  }

  predicate BetweenEmptyRanges(pre: string, tail: string) {
    BackwardBefore(pre) && BackwardAfter(tail)
  }

  ghost predicate Collapsible(pre: string, tail: string) {
    && EndsSegment(pre) && StartsWithDoubleStar(tail)
    && !(BetweenEmptyRanges(pre, tail) && HasPlainBracket(pre))
  }

  lemma {:induction false} InRangesCons(r: Range, rs: seq<Range>, c: char)
    ensures InRanges([r] + rs, c) <==> r.lo <= c <= r.hi || InRanges(rs, c)
  {
    assert ([r] + rs)[0] == r;
    if InRanges(rs, c) {
      var k :| 0 <= k < |rs| && rs[k].lo <= c <= rs[k].hi;
      assert ([r] + rs)[k + 1] == rs[k];
    }
    if InRanges([r] + rs, c) {
      var k :| 0 <= k < |[r] + rs| && ([r] + rs)[k].lo <= c <= ([r] + rs)[k].hi;
      if k > 0 { assert rs[k - 1] == ([r] + rs)[k]; }
    }
  }

  /** A class whose next member is the single rune x. */
  function Prefixed(x: char, rest: Option<ClassBody>): Option<ClassBody> {
    After([Range(x, x)], rest)
  }

  lemma {:induction false} PlainMember(p: string, k: nat)
    requires k < |p| && p[k] != '\\' && p[k] != ']' && (k + 1 < |p| ==> p[k + 1] != '-')
    ensures ClassMembers(p, k, false) == Prefixed(p[k], ClassMembers(p, k + 1, false))
  {
  }

  lemma {:induction false} TwoThenOne(pre: string, tail: string)
    ensures SameRest(pre + "**/" + tail, |pre| + 3, pre + tail, |pre|)
  {
  }

  /** Two plain stars and the separator, read as class members. */
  lemma {:induction false} StarsAsMembers(p: string, n: nat)
    requires n + 4 < |p| && p[n] == '*' && p[n + 1] == '*' && p[n + 2] == '/' && p[n + 3] == '*'
    ensures ClassMembers(p, n, false)
         == Prefixed('*', Prefixed('*', Prefixed('/', ClassMembers(p, n + 3, false))))
  {
    PlainMember(p, n);
    PlainMember(p, n + 1);
    PlainMember(p, n + 2);
  }

  /** With two "**", the class reads '*', '*' and the separator before the rest. */
  lemma {:induction false} MembersWithTwo(pre: string, tail: string)
    requires StartsWithDoubleStar(tail)
    ensures var p, q := pre + "**/" + tail, pre + tail;
            && ClassMembers(p, |pre|, false)
               == Prefixed('*', Prefixed('*', Prefixed('/', ClassMembers(p, |pre| + 3, false))))
            && SameParse(ClassMembers(p, |pre| + 3, false), |pre| + 3, ClassMembers(q, |pre|, false), |pre|)
  {
    StarsAsMembers(pre + "**/" + tail, |pre|);
    TwoThenOne(pre, tail);
    SameSuffixMembers(pre + "**/" + tail, |pre| + 3, pre + tail, |pre|, false);
  }

  /** With one "**", the class reads a star, and the separator unless an empty range hides it. */
  lemma {:induction false} MembersWithOne(pre: string, tail: string)
    requires StartsWithDoubleStar(tail)
    ensures var b := ClassMembers(pre + tail, |pre|, false);
            b.Some? ==> && InRanges(b.value.ranges, '*')
                        && (!BackwardAfter(tail) ==> InRanges(b.value.ranges, '/'))
                        && b.value.next > |pre|
  {
    var q, n := pre + tail, |pre|;
    assert q[n] == '*' && q[n + 1] == '*';
    PlainMember(q, n);
    PlainMember(q, n + 1);
    var b, rest := ClassMembers(q, n, false), ClassMembers(q, n + 2, false);
    if b.Some? {
      var r := rest.value.ranges;
      InRangesCons(Range('*', '*'), [Range('*', '*')] + r, '*');
      InRangesCons(Range('*', '*'), [Range('*', '*')] + r, '/');
      InRangesCons(Range('*', '*'), r, '/');
      assert |tail| > 2;
      assert q[n + 2] == '/';
      if |tail| > 3 { assert q[n + 3] == tail[3]; }
      if |tail| > 4 { assert q[n + 4] == tail[4]; }
      assert r[0] == MemberRange(q, n + 2);
    }
  }

  /** The class members from the first "**" on, with one "**" and with two. */
  lemma {:induction false} MembersFromTail(pre: string, tail: string, c: char)
    requires StartsWithDoubleStar(tail)
    ensures var a, b := ClassMembers(pre + "**/" + tail, |pre|, false), ClassMembers(pre + tail, |pre|, false);
            && a.Some? == b.Some?
            && (a.Some? ==>
                && a.value.next == b.value.next + 3
                && b.value.next > |pre|
                && (InRanges(a.value.ranges, c) <==> InRanges(b.value.ranges, c) || c == '/')
                && (c == '/' && !BackwardAfter(tail) ==> InRanges(b.value.ranges, c)))
  {
    MembersWithTwo(pre, tail);
    MembersWithOne(pre, tail);
    var b := ClassMembers(pre + tail, |pre|, false);
    if b.Some? {
      var r := b.value.ranges;
      InRangesCons(Range('*', '*'), [Range('*', '*')] + ([Range('/', '/')] + r), c);
      InRangesCons(Range('*', '*'), [Range('/', '/')] + r, c);
      InRangesCons(Range('/', '/'), r, c);
    }
  }

  /** A class member that starts before the "**" is the same in both patterns and ends before it. */
  lemma {:induction false} MemberBefore(pre: string, tail: string, k: nat)
    requires EndsSegment(pre) && StartsWithDoubleStar(tail) && k < |pre|
    ensures var p, q := pre + "**/" + tail, pre + tail;
            && MemberEnd(p, k) == MemberEnd(q, k) <= |pre|
            && MemberRange(p, k) == MemberRange(q, k)
            && (MemberEnd(p, k) == |pre| && !BackwardBefore(pre)
                ==> MemberRange(p, k).lo <= '/' <= MemberRange(p, k).hi)
  {
    var p, q, n := pre + "**/" + tail, pre + tail, |pre|;
    assert forall m :: 0 <= m < n ==> p[m] == pre[m] == q[m];
    assert p[n] == '*' == q[n] && p[n + 1] == '*' == q[n + 1];
    var a := MemberIndex(p, k);
    assert a == MemberIndex(q, k) && a < n;
  }

  /** The first class holds the runes of the second, and of others at most the separator, when it reaches
      past position n, and not even that when it is exact; they end at the same place. */
  ghost predicate SameClass(a: Option<ClassBody>, b: Option<ClassBody>, n: nat, c: char, exact: bool) {
    a.Some? == b.Some? &&
    (a.Some? ==> && (InRanges(b.value.ranges, c) ==> InRanges(a.value.ranges, c))
                 && (InRanges(a.value.ranges, c) ==> InRanges(b.value.ranges, c) || (c == '/' && b.value.next > n))
                 && (exact && InRanges(a.value.ranges, c) ==> InRanges(b.value.ranges, c))
                 && (c == '/' && b.value.next > n ==> InRanges(a.value.ranges, c))
                 && (a.value.next == b.value.next <= n || (a.value.next == b.value.next + 3 && b.value.next > n)))
  }

  /** Reading one more member, which holds the separator when the rest may miss it. */
  lemma {:induction false} SameClassAfter(r: Range, a: Option<ClassBody>, b: Option<ClassBody>, n: nat, c: char,
                                          exact: bool, atEnd: bool)
    requires a.Some? == b.Some?
    requires a.Some? && !atEnd ==> SameClass(a, b, n, c, exact)
    requires a.Some? && atEnd ==>
               && a.value.next == b.value.next + 3 && b.value.next > n
               && (InRanges(a.value.ranges, c) <==> InRanges(b.value.ranges, c) || c == '/')
               && (exact && c == '/' ==> InRanges(b.value.ranges, c) || r.lo <= '/' <= r.hi)
    ensures SameClass(After([r], a), After([r], b), n, c, exact)
  {
    if a.Some? {
      InRangesCons(r, a.value.ranges, c);
      InRangesCons(r, b.value.ranges, c);
    }
  }

  lemma {:induction false} SameMembers(pre: string, tail: string, k: nat, first: bool, c: char)
    requires EndsSegment(pre) && StartsWithDoubleStar(tail) && k < |pre|
    ensures SameClass(ClassMembers(pre + "**/" + tail, k, first), ClassMembers(pre + tail, k, first), |pre|, c,
                      !BetweenEmptyRanges(pre, tail))
    decreases |pre| - k
  {
    var p, q := pre + "**/" + tail, pre + tail;
    assert p[k] == pre[k] == q[k];
    if !(p[k] == ']' && !first) {
      MemberBefore(pre, tail, k);
      var e, r := MemberEnd(p, k), MemberRange(p, k);
      if e < |pre| {
        SameMembers(pre, tail, e, false, c);
      } else {
        MembersFromTail(pre, tail, c);
      }
      SameClassAfter(r, ClassMembers(p, e, false), ClassMembers(q, e, false), |pre|, c,
                     !BetweenEmptyRanges(pre, tail), e == |pre|);
    }
  }

  /** A token that starts before the "**" accepts the same runes in both patterns, apart from the separator
      in a class that reaches past it. */
  ghost predicate SameToken(p: string, q: string, n: nat, i: nat, c: char)
    requires i < |p| && i < |q|
  {
    var a, b := TokenAt(p, i), TokenAt(q, i);
    && a.Star? == b.Star?
    && (NextAt(q, i) <= n ==> NextAt(p, i) == NextAt(q, i) && AcceptsRune(a, c) == AcceptsRune(b, c))
    && (NextAt(q, i) > n ==>
          && NextAt(p, i) == NextAt(q, i) + 3 && a.Class? && b.Class? && a.negate == b.negate
          && (c != '/' ==> AcceptsRune(a, c) == AcceptsRune(b, c))
          && AcceptsRune(a, '/') == !a.negate)
  }

  lemma {:induction false} SameTokenBefore(pre: string, tail: string, i: nat, c: char)
    requires EndsSegment(pre) && StartsWithDoubleStar(tail) && i < |pre|
    ensures SameToken(pre + "**/" + tail, pre + tail, |pre|, i, c)
  {
    var p, q := pre + "**/" + tail, pre + tail;
    assert p[i] == pre[i] == q[i];
    if i + 1 < |pre| {
      assert p[i + 1] == pre[i + 1] == q[i + 1];
      if p[i] == '[' {
        var k := if IsNegated(p, i) then i + 2 else i + 1;
        assert k < |pre| && IsNegated(p, i) == IsNegated(q, i);
        SameMembers(pre, tail, k, true, c);
        SameMembers(pre, tail, k, true, '/');
      }
    }
  }

  /** The class that reaches over position n, if there is one on the way from i, is negated or holds the
      separator. */
  ghost predicate KeepsSeparator(q: string, n: nat, i: nat)
    requires i <= n <= |q|
    decreases n - i
  {
    i == n ||
    if NextAt(q, i) <= n then KeepsSeparator(q, n, NextAt(q, i))
    else
      var t := TokenAt(q, i);
      t.Class? && (t.negate || InRanges(t.ranges, '/'))
  }

  lemma {:induction false} ExactHoldsSeparator(pre: string, tail: string, i: nat)
    requires EndsSegment(pre) && StartsWithDoubleStar(tail) && !BetweenEmptyRanges(pre, tail)
    requires i < |pre| && NextAt(pre + tail, i) > |pre| && TokenAt(pre + tail, i).Class?
    ensures InRanges(TokenAt(pre + tail, i).ranges, '/')
  {
    var q := pre + tail;
    assert q[i] == pre[i] == '[';
    assert i + 1 < |pre| && q[i + 1] == pre[i + 1];
    var k := if IsNegated(q, i) then i + 2 else i + 1;
    SameMembers(pre, tail, k, true, '/');
  }

  lemma {:induction false} CollapsibleKeeps(pre: string, tail: string, i: nat)
    requires Collapsible(pre, tail) && i <= |pre|
    ensures KeepsSeparator(pre + tail, |pre|, i)
    decreases |pre| - i
  {
    var q := pre + tail;
    if i < |pre| {
      SameTokenBefore(pre, tail, i, '/');
      if NextAt(q, i) <= |pre| {
        CollapsibleKeeps(pre, tail, NextAt(q, i));
      } else if !TokenAt(q, i).negate {
        PlainBracketAt(pre, tail, i);
        ExactHoldsSeparator(pre, tail, i);
      }
    }
  }

  lemma {:induction false} PlainBracketAt(pre: string, tail: string, i: nat)
    requires EndsSegment(pre) && i < |pre| && TokenAt(pre + tail, i).Class? && !TokenAt(pre + tail, i).negate
    ensures HasPlainBracket(pre)
  {
    var q := pre + tail;
    assert q[i] == pre[i] == '[';
    assert i + 1 < |pre| && q[i + 1] == pre[i + 1];
    assert !IsNegated(pre, i);
  }

  /** A star accepts from every earlier start what it accepts from a later one. */
  lemma {:induction false} StarFromEarlier(p: string, i: nat, t: string, j: nat, k: nat)
    requires i < |p| && p[i] == '*' && j <= k <= |t| && Accepts(p, i, t, k)
    ensures Accepts(p, i, t, j)
    decreases k - j
  {
    if j < k { StarFromEarlier(p, i, t, j + 1, k); }
  }

  /** Removing one of two adjacent "**" segments keeps every string of the language, when no class that
      reaches over it loses the separator. */
  lemma {:induction false} CollapseAccepts(pre: string, tail: string, i: nat, t: string, j: nat)
    requires EndsSegment(pre) && StartsWithDoubleStar(tail) && i <= |pre| && j <= |t|
    requires KeepsSeparator(pre + tail, |pre|, i)
    requires Accepts(pre + "**/" + tail, i, t, j)
    ensures Accepts(pre + tail, i, t, j)
    decreases |pre| - i + |t| - j
  {
    var p, q, n := pre + "**/" + tail, pre + tail, |pre|;
    if i == n {
      assert p[n] == '*' && p[n + 1] == '*' && p[n + 2] == '/';
      TwoThenOne(pre, tail);
      StarAcceptsFrom(p, n, t, j);
      var k :| j <= k <= |t| && Accepts(p, n + 1, t, k);
      StarAcceptsFrom(p, n + 1, t, k);
      var m :| k <= m <= |t| && Accepts(p, n + 2, t, m);
      assert Accepts(p, n + 3, t, m + 1);
      SameSuffixAccepts(p, n + 3, q, n, t, m + 1);
      StarFromEarlier(q, n, t, j, m + 1);
    } else {
      SameTokenBefore(pre, tail, i, if j < |t| then t[j] else '/');
      if TokenAt(p, i).Star? {
        if Accepts(p, i + 1, t, j) {
          CollapseAccepts(pre, tail, i + 1, t, j);
        } else {
          CollapseAccepts(pre, tail, i, t, j + 1);
        }
      } else if NextAt(q, i) <= n {
        CollapseAccepts(pre, tail, NextAt(q, i), t, j + 1);
      } else {
        assert SameRest(p, NextAt(p, i), q, NextAt(q, i));
        SameSuffixAccepts(p, NextAt(p, i), q, NextAt(q, i), t, j + 1);
      }
    }
  }

  // ----- Collapsing a whole list of segments -----

  /** The last half of a range above the separator, and the first half of one below it. */
  predicate OpensBackward(seg: string) {
    |seg| >= 2 && seg[|seg| - 1] == '-' && seg[|seg| - 2] > '/' && !EndsEscaping(seg[..|seg| - 1])
  }

  predicate ClosesBackward(seg: string) {
    |seg| >= 2 && seg[0] == '-' && seg[1] < '/'
  }

  /** No run of two or more "**" stands between "...x-" and "-y..." with x > '/' > y, behind a bracket that
      can open a class that is not negated. Only there can the doubled separator be a rune that the
      single one is not. The last segment before is `open`, `stars` segments "**" have followed it, and
      `bracket` tells of such a bracket before. */
  ghost predicate NoBackwardRange(segs: seq<string>, open: bool := false, stars: nat := 0, bracket: bool := false) {
    segs == [] ||
    if segs[0] == "**" then NoBackwardRange(segs[1..], open, stars + 1, bracket)
    else !(open && stars >= 2 && ClosesBackward(segs[0]) && bracket)
         && NoBackwardRange(segs[1..], OpensBackward(segs[0]), 0, bracket || HasPlainBracket(segs[0]))
  }

  lemma {:induction false} FewerStars(segs: seq<string>, open: bool, stars: nat, fewer: nat, bracket: bool)
    requires NoBackwardRange(segs, open, stars, bracket) && fewer <= stars
    ensures NoBackwardRange(segs, open, fewer, bracket)
  {
    if segs != [] && segs[0] == "**" { FewerStars(segs[1..], open, stars + 1, fewer + 1, bracket); }
  }

  lemma {:induction false} KeepNoBackward(segs: seq<string>, keep: seq<bool>, open: bool, stars: nat, fewer: nat,
                                          bracket: bool)
    requires DropsOnlyStars(segs, keep) && NoBackwardRange(segs, open, stars, bracket) && fewer <= stars
    ensures NoBackwardRange(Keep(segs, keep), open, fewer, bracket)
  {
    if segs == [] {
    } else {
      var rest := Keep(segs[1..], keep[1..]);
      assert ([segs[0]] + rest)[1..] == rest && [] + rest == rest;
      if segs[0] == "**" {
        KeepNoBackward(segs[1..], keep[1..], open, stars + 1, if keep[0] then fewer + 1 else fewer, bracket);
      } else {
        KeepNoBackward(segs[1..], keep[1..], OpensBackward(segs[0]), 0, 0, bracket || HasPlainBracket(segs[0]));
      }
    }
  }

  lemma {:induction false} JoinSplitAt(xs: seq<string>, ys: seq<string>)
    requires xs != [] && ys != []
    ensures Join(xs + ys) == Join(xs) + "/" + Join(ys)
  {
    if |xs| == 1 {
      assert (xs + ys)[1..] == ys;
    } else {
      JoinSplitAt(xs[1..], ys);
      assert (xs + ys)[1..] == xs[1..] + ys;
      assert Join(xs + ys) == xs[0] + "/" + (Join(xs[1..]) + "/" + Join(ys));
    }
  }

  /** The text of the segments before a later one. */
  function Before(segs: seq<string>): string {
    if segs == [] then "" else Join(segs) + "/"
  }

  lemma {:induction false} JoinBefore(xs: seq<string>, ys: seq<string>)
    requires ys != []
    ensures Join(xs + ys) == Before(xs) + Join(ys)
  {
    if xs == [] { assert xs + ys == ys; } else { JoinSplitAt(xs, ys); }
  }

  lemma {:induction false} BeforeEnds(segs: seq<string>)
    ensures EndsSegment(Before(segs))
    ensures BackwardBefore(Before(segs)) ==> segs != [] && OpensBackward(segs[|segs| - 1])
  {
    if segs != [] {
      var n := |segs| - 1;
      assert segs == segs[..n] + [segs[n]];
      JoinBefore(segs[..n], [segs[n]]);
    }
  }

  ghost predicate SomePlainBracket(segs: seq<string>) {
    exists k :: 0 <= k < |segs| && HasPlainBracket(segs[k])
  }

  lemma {:induction false} BracketOfConcat(a: string, b: string)
    requires HasPlainBracket(a + "/" + b)
    ensures HasPlainBracket(a) || HasPlainBracket(b)
  {
    var s, n := a + "/" + b, |a| + 1;
    var i :| 0 <= i < |s| && s[i] == '[' && !IsNegated(s, i);
    if i < |a| {
      assert a[i] == s[i] && (i + 1 < |a| ==> a[i + 1] == s[i + 1]);
      assert !IsNegated(a, i);
    } else {
      assert b[i - n] == s[i] && (i + 1 - n < |b| ==> b[i + 1 - n] == s[i + 1]);
      assert !IsNegated(b, i - n);
    }
  }

  lemma {:induction false} BracketBefore(segs: seq<string>)
    requires HasPlainBracket(Before(segs))
    ensures SomePlainBracket(segs)
  {
    if segs != [] {
      var seg, rest := segs[0], segs[1..];
      assert segs == [seg] + rest;
      BeforeCons(seg, rest);
      BracketOfConcat(seg, Before(rest));
      if HasPlainBracket(Before(rest)) {
        BracketBefore(rest);
        var k :| 0 <= k < |rest| && HasPlainBracket(rest[k]);
        assert segs[k + 1] == rest[k];
      }
    }
  }

  lemma {:induction false} BracketSnoc(xs: seq<string>, s: string)
    ensures SomePlainBracket(xs + [s]) <==> SomePlainBracket(xs) || HasPlainBracket(s)
  {
    var all := xs + [s];
    assert all[|xs|] == s && forall k :: 0 <= k < |xs| ==> all[k] == xs[k];
  }

  lemma {:induction false} JoinStars(ys: seq<string>)
    ensures StartsWithDoubleStar(Join(["**"] + ys))
    ensures BackwardAfter(Join(["**"] + ys)) ==> ys != [] && ClosesBackward(ys[0])
  {
    var j := Join(["**"] + ys);
    assert (["**"] + ys)[1..] == ys;
    if ys != [] {
      assert j == "**" + "/" + Join(ys);
      if |ys| > 1 { assert Join(ys) == ys[0] + "/" + Join(ys[1..]); }
      if |j| >= 5 {
        assert j[3] == Join(ys)[0] && j[4] == Join(ys)[1];
      }
    }
  }

  lemma {:induction false} CollapseLanguage(pre: string, tail: string, two: string, one: string, t: string)
    requires Collapsible(pre, tail) && two == pre + "**/" + tail && one == pre + tail && Matches(two, t)
    ensures Matches(one, t)
  {
    AcceptsIsMatch(two, t);
    CollapsibleKeeps(pre, tail, 0);
    CollapseAccepts(pre, tail, 0, t, 0);
    AcceptsIsMatch(one, t);
  }

  lemma {:induction false} OneCollapsible(xs: seq<string>, ys: seq<string>)
    requires xs != [] && ys != [] ==>
               !(OpensBackward(xs[|xs| - 1]) && ClosesBackward(ys[0]) && SomePlainBracket(xs))
    ensures Collapsible(Before(xs), Join(["**"] + ys))
  {
    BeforeEnds(xs);
    JoinStars(ys);
    if HasPlainBracket(Before(xs)) { BracketBefore(xs); }
  }

  /** One collapse, with the lists and their texts named: one holds a "**" and two holds it twice. */
  lemma {:induction false} CollapseNamed(xs: seq<string>, ys: seq<string>, one: seq<string>, two: seq<string>,
                                         t: string)
    requires one == ["**"] + ys && two == ["**"] + one && Matches(Join(xs + two), t)
    requires xs != [] && ys != [] ==>
               !(OpensBackward(xs[|xs| - 1]) && ClosesBackward(ys[0]) && SomePlainBracket(xs))
    ensures Matches(Join(xs + one), t)
  {
    OneCollapsible(xs, ys);
    NamedTexts(xs, one, two);
    CollapseLanguage(Before(xs), Join(one), Join(xs + two), Join(xs + one), t);
  }

  lemma {:induction false} NamedTexts(xs: seq<string>, one: seq<string>, two: seq<string>)
    requires one != [] && two == ["**"] + one
    ensures Join(xs + one) == Before(xs) + Join(one)
    ensures Join(xs + two) == Before(xs) + "**/" + Join(one)
  {
    JoinBefore(xs, one);
    JoinBefore(xs, two);
    JoinSplitAt(["**"], one);
    assert Before(xs) + ("**" + "/" + Join(one)) == Before(xs) + "**/" + Join(one);
  }

  /** One collapse: ... "**" "**" ... against ... "**" ... */
  lemma {:induction false} CollapseOne(xs: seq<string>, ys: seq<string>, t: string)
    requires Matches(Join(xs + ["**"] + (["**"] + ys)), t)
    requires xs != [] && ys != [] ==>
               !(OpensBackward(xs[|xs| - 1]) && ClosesBackward(ys[0]) && SomePlainBracket(xs))
    ensures Matches(Join(xs + ["**"] + ys), t)
  {
    var one := ["**"] + ys;
    var two := ["**"] + one;
    assert xs + ["**"] + one == xs + two && xs + ["**"] + ys == xs + one;
    CollapseNamed(xs, ys, one, two, t);
  }

  /** xs is collapsed already, and ends in the state (open, prev, bracket). */
  ghost predicate CollapsedPrefix(xs: seq<string>, open: bool, prev: bool, bracket: bool) {
    && (if prev then
          xs != [] && xs[|xs| - 1] == "**" && (|xs| == 1 || OpensBackward(xs[|xs| - 2]) == open)
        else (xs != [] ==> OpensBackward(xs[|xs| - 1]) == open))
    && (SomePlainBracket(xs) ==> bracket)
  }

  lemma {:induction false} PrefixSnoc(xs: seq<string>, s: string, open: bool, prev: bool, bracket: bool)
    requires CollapsedPrefix(xs, open, prev, bracket) && !(prev && s == "**")
    ensures s == "**" ==> CollapsedPrefix(xs + [s], open, true, bracket)
    ensures s != "**" ==> CollapsedPrefix(xs + [s], OpensBackward(s), false, bracket || HasPlainBracket(s))
  {
    BracketSnoc(xs, s);
  }

  /** One more "**" of a run is collapsed. */
  lemma {:induction false} CollapseRun(xs: seq<string>, rest: seq<string>, open: bool, bracket: bool, t: string)
    requires CollapsedPrefix(xs, open, true, bracket) && NoBackwardRange(["**"] + rest, open, 1, bracket)
    requires Matches(Join(xs + (["**"] + rest)), t)
    ensures NoBackwardRange(rest, open, 1, bracket) && Matches(Join(xs + rest), t)
  {
    var front := xs[..|xs| - 1];
    assert xs == front + ["**"];
    assert (["**"] + rest)[1..] == rest;
    assert xs + (["**"] + rest) == front + ["**"] + (["**"] + rest) && xs + rest == front + ["**"] + rest;
    BracketSnoc(front, "**");
    CollapseOne(front, rest, t);
    FewerStars(rest, open, 2, 1, bracket);
  }

  /** Collapsing every run keeps every string of the language. */
  lemma {:induction false} DedupAccepts(xs: seq<string>, segs: seq<string>, open: bool, prev: bool, bracket: bool,
                                        t: string)
    requires CollapsedPrefix(xs, open, prev, bracket) && NoBackwardRange(segs, open, if prev then 1 else 0, bracket)
    requires Matches(Join(xs + segs), t)
    ensures Matches(Join(xs + Dedup(segs, prev)), t)
    decreases |segs|
  {
    if segs != [] {
      var s, rest := segs[0], segs[1..];
      assert segs == [s] + rest;
      if s == "**" && prev {
        CollapseRun(xs, rest, open, bracket, t);
        DedupAccepts(xs, rest, open, true, bracket, t);
      } else {
        assert xs + segs == xs + [s] + rest;
        assert xs + Dedup(segs, prev) == xs + [s] + Dedup(rest, s == "**");
        PrefixSnoc(xs, s, open, prev, bracket);
        if s == "**" {
          DedupAccepts(xs + [s], rest, open, true, bracket, t);
        } else {
          DedupAccepts(xs + [s], rest, OpensBackward(s), false, bracket || HasPlainBracket(s), t);
        }
      }
    }
  }

  // ----- Patterns whose classes hold no separator -----

  /** Read on its own, the segment closes every class that it opens. */
  predicate Closed(seg: string, m: nat := 0)
    requires m <= |seg|
    decreases |seg| - m
  {
    m == |seg| || ((seg[m] == '[' ==> ClassAt(seg, m).Some?) && Closed(seg, NextAt(seg, m)))
  }

  /** A class that its segment leaves open finds no bracket in a later one: no class holds a separator. */
  predicate NoSplitClass(segs: seq<string>) {
    forall i, j :: 0 <= i < j < |segs| ==> Closed(segs[i]) || ']' !in segs[j]
  }

  /** Both patterns start with the same tokens, which end where position n is reached. */
  ghost predicate SameTokens(p: string, q: string, n: nat, i: nat)
    requires n <= |p| && n <= |q|
    decreases if i <= n then n - i else 0
  {
    i == n ||
    (i < n && TokenAt(p, i) == TokenAt(q, i) && NextAt(p, i) == NextAt(q, i) && SameTokens(p, q, n, NextAt(p, i)))
  }

  /** A class that closes is read the same whatever follows the bracket. */
  lemma {:induction false} ClosedMembers(a: string, more: string, k: nat, first: bool)
    requires k <= |a| && ClassMembers(a, k, first).Some?
    ensures ClassMembers(a + more, k, first) == ClassMembers(a, k, first)
    decreases |a| - k
  {
    assert (a + more)[k] == a[k];
    if !(a[k] == ']' && !first) {
      var e := MemberEnd(a, k);
      assert e < |a|;
      ClosedMembers(a, more, e, false);
      MemberInside(a, more, k);
    }
  }

  lemma {:induction false} MemberInside(a: string, more: string, k: nat)
    requires k < |a| && ClassMembers(a, MemberEnd(a, k), false).Some?
    ensures MemberEnd(a + more, k) == MemberEnd(a, k) && MemberRange(a + more, k) == MemberRange(a, k)
  {
    var s := a + more;
    assert forall m :: 0 <= m < |a| ==> s[m] == a[m];
  }

  /** A class that is left open finds its bracket in what follows, if at all. */
  lemma {:induction false} OpenMembers(a: string, more: string, k: nat, first: bool)
    requires k <= |a| && ClassMembers(a, k, first).None? && ']' !in more
    ensures ClassMembers(a + more, k, first).None?
    decreases |a| - k
  {
    var s := a + more;
    assert forall m :: 0 <= m < |a| ==> s[m] == a[m];
    if k < |a| {
      var e := MemberEnd(s, k);
      if e <= |a| && MemberEnd(a, k) == e {
        OpenMembers(a, more, e, false);
      } else {
        NoBracket(s, e, |a|);
      }
    } else {
      NoBracket(s, k, |a|);
    }
  }

  lemma {:induction false} NoBracket(s: string, k: nat, n: nat)
    requires n <= |s| && k <= |s| && ']' !in s[n..] && (k < n ==> k + 1 == n && s[k] == '-')
    ensures ClassMembers(s, k, false).None?
    decreases |s| - k
  {
    if k < |s| {
      assert k >= n ==> s[k] == s[n..][k - n];
      NoBracket(s, MemberEnd(s, k), n);
    }
  }

  /** A token of a segment does not look past the separator behind the segment. */
  lemma {:induction false} TokenInSegment(seg: string, r1: string, r2: string, m: nat)
    requires m < |seg|
    requires (seg[m] == '[' ==> ClassAt(seg, m).Some?) || (']' !in r1 && ']' !in r2)
    ensures var s1, s2 := seg + ("/" + r1), seg + ("/" + r2);
      TokenAt(s1, m) == TokenAt(s2, m) && NextAt(s1, m) == NextAt(s2, m) <= |seg| + 1
      && (NextAt(s1, m) <= |seg| ==> NextAt(s1, m) == NextAt(seg, m))
  {
    var s1, s2 := seg + ("/" + r1), seg + ("/" + r2);
    assert s1[m] == seg[m] == s2[m];
    assert s1[|seg|] == '/' == s2[|seg|];
    if m + 1 < |seg| { assert s1[m + 1] == seg[m + 1] == s2[m + 1]; }
    if seg[m] == '[' {
      ClassInSegment(seg, r1, m);
      ClassInSegment(seg, r2, m);
    }
  }

  lemma {:induction false} ClassInSegment(seg: string, r: string, m: nat)
    requires m < |seg| && seg[m] == '[' && (ClassAt(seg, m).Some? || ']' !in r)
    ensures ClassAt(seg + ("/" + r), m) == ClassAt(seg, m)
    ensures ClassAt(seg, m).Some? ==> IsNegated(seg + ("/" + r), m) == IsNegated(seg, m)
  {
    var s := seg + ("/" + r);
    assert s[|seg|] == '/';
    if m + 1 < |seg| { assert s[m + 1] == seg[m + 1]; }
    assert IsNegated(s, m) == IsNegated(seg, m);
    var k := if IsNegated(seg, m) then m + 2 else m + 1;
    if ClassAt(seg, m).Some? {
      ClosedMembers(seg, "/" + r, k, true);
    } else {
      OpenMembers(seg, "/" + r, k, true);
    }
  }

  lemma {:induction false} SuffixToken(p: string, i: nat, q: string, l: nat)
    requires i < |p| && SameRest(p, i, q, l)
    ensures l < |q| && TokenAt(p, i) == TokenAt(q, l) && NextAt(p, i) - i == NextAt(q, l) - l
  {
    SameSuffixToken(p, i, q, l);
  }

  lemma {:induction false} AppendedRest(done: string, s: string, p: string, m: nat)
    requires p == done + s && m < |s|
    ensures SameRest(s, m, p, |done| + m)
  {
  }

  lemma {:induction false} SegmentStep(done: string, seg: string, r1: string, r2: string, p: string, q: string, m: nat)
    returns (e: nat)
    requires p == done + (seg + ("/" + r1)) && q == done + (seg + ("/" + r2)) && m < |seg|
    requires (seg[m] == '[' ==> ClassAt(seg, m).Some?) || (']' !in r1 && ']' !in r2)
    ensures TokenAt(p, |done| + m) == TokenAt(q, |done| + m)
    ensures NextAt(p, |done| + m) == NextAt(q, |done| + m) == |done| + e && m < e <= |seg| + 1
    ensures e <= |seg| ==> e == NextAt(seg, m)
  {
    var s1, s2 := seg + ("/" + r1), seg + ("/" + r2);
    TokenInSegment(seg, r1, r2, m);
    SuffixToken(s1, m, p, |done| + m) by { AppendedRest(done, s1, p, m); }
    SuffixToken(s2, m, q, |done| + m) by { AppendedRest(done, s2, q, m); }
    e := NextAt(s1, m);
  }

  lemma {:induction false} SegmentNext(done: string, seg: string, r1: string, r2: string, p: string, q: string, n: nat,
                                       m: nat)
    returns (e: nat)
    requires p == done + (seg + ("/" + r1)) && q == done + (seg + ("/" + r2)) && m < |seg|
    requires (seg[m] == '[' ==> ClassAt(seg, m).Some?) || (']' !in r1 && ']' !in r2)
    requires |done| + |seg| + 1 <= n <= |p| && n <= |q|
    ensures m < e <= |seg| + 1 && (e <= |seg| ==> e == NextAt(seg, m))
    ensures SameTokens(p, q, n, |done| + e) ==> SameTokens(p, q, n, |done| + m)
  {
    e := SegmentStep(done, seg, r1, r2, p, q, m);
    if SameTokens(p, q, n, |done| + e) { OneMoreToken(p, q, n, |done| + m, |done| + e); }
  }

  /** The tokens of one segment, from position m on. */
  lemma {:induction false} SegmentTokens(done: string, seg: string, r1: string, r2: string, p: string, q: string,
                                         n: nat, m: nat)
    requires p == done + (seg + ("/" + r1)) && q == done + (seg + ("/" + r2))
    requires m <= |seg| && |done| + |seg| + 1 <= n <= |p| && n <= |q|
    requires Closed(seg, m) || (']' !in r1 && ']' !in r2)
    requires SameTokens(p, q, n, |done| + |seg| + 1)
    ensures SameTokens(p, q, n, |done| + m)
    decreases |seg| - m
  {
    if m == |seg| {
      SegmentEnd(done, seg, r1, r2, p, q, n);
    } else {
      var e := SegmentNext(done, seg, r1, r2, p, q, n, m);
      if e <= |seg| {
        SegmentTokens(done, seg, r1, r2, p, q, n, e);
      }
    }
  }

  lemma {:induction false} SegmentEnd(done: string, seg: string, r1: string, r2: string, p: string, q: string, n: nat)
    requires p == done + (seg + ("/" + r1)) && q == done + (seg + ("/" + r2))
    requires |done| + |seg| + 1 <= n <= |p| && n <= |q| && SameTokens(p, q, n, |done| + |seg| + 1)
    ensures SameTokens(p, q, n, |done| + |seg|)
  {
    SeparatorToken(done, seg, r1, p);
    SeparatorToken(done, seg, r2, q);
    OneMoreToken(p, q, n, |done| + |seg|, |done| + |seg| + 1);
  }

  lemma {:induction false} OneMoreToken(p: string, q: string, n: nat, i: nat, next: nat)
    requires n <= |p| && n <= |q| && i < n && TokenAt(p, i) == TokenAt(q, i) && NextAt(p, i) == NextAt(q, i) == next
    requires SameTokens(p, q, n, next)
    ensures SameTokens(p, q, n, i)
  {
  }

  lemma {:induction false} SeparatorToken(done: string, seg: string, r: string, p: string)
    requires p == done + (seg + ("/" + r))
    ensures TokenAt(p, |done| + |seg|) == Literal('/') && NextAt(p, |done| + |seg|) == |done| + |seg| + 1
  {
    assert p[|done| + |seg|] == '/';
  }

  lemma {:induction false} Reassociate(done: string, seg: string, rest: string, r: string)
    ensures done + ((seg + "/" + rest) + r) == (done + (seg + "/")) + (rest + r) == done + (seg + ("/" + (rest + r)))
  {
  }

  /** A segment that leaves a class open has no bracket behind it, in later segments or in the rest. */
  predicate PlainPrefix(xs: seq<string>, bracketInRest: bool) {
    xs == [] || ((Closed(xs[0]) || (!bracketInRest && NoBracketIn(xs[1..]))) && PlainPrefix(xs[1..], bracketInRest))
  }

  predicate NoBracketIn(xs: seq<string>) {
    forall j :: 0 <= j < |xs| ==> ']' !in xs[j]
  }

  /** The tokens of all the segments before a position. */
  lemma {:induction false} PrefixTokens(done: string, xs: seq<string>, r1: string, r2: string, p: string, q: string,
                                        n: nat)
    requires p == done + (Before(xs) + r1) && q == done + (Before(xs) + r2) && n == |done| + |Before(xs)|
    requires PlainPrefix(xs, ']' in r1 || ']' in r2)
    ensures SameTokens(p, q, n, |done|)
    decreases |xs|
  {
    if xs != [] {
      var seg, rest, next := xs[0], xs[1..], done + (xs[0] + "/");
      assert xs == [seg] + rest;
      PrefixStep(done, seg, rest, r1, r2, p, q, next);
      PrefixTokens(next, rest, r1, r2, p, q, n);
      LaterBrackets(seg, rest, r1, r2);
      OneSegment(done, seg, Before(rest) + r1, Before(rest) + r2, p, q, n, |next|);
    }
  }

  lemma {:induction false} OneSegment(done: string, seg: string, t1: string, t2: string, p: string, q: string, n: nat,
                                      next: nat)
    requires p == done + (seg + ("/" + t1)) && q == done + (seg + ("/" + t2))
    requires next == |done| + |seg| + 1 <= n <= |p| && n <= |q|
    requires Closed(seg, 0) || (']' !in t1 && ']' !in t2)
    requires SameTokens(p, q, n, next)
    ensures SameTokens(p, q, n, |done|)
  {
    SegmentTokens(done, seg, t1, t2, p, q, n, 0);
  }

  lemma {:induction false} PrefixStep(done: string, seg: string, rest: seq<string>, r1: string, r2: string, p: string,
                                      q: string,
                                      next: string)
    requires p == done + (Before([seg] + rest) + r1) && q == done + (Before([seg] + rest) + r2)
    requires next == done + (seg + "/")
    ensures p == next + (Before(rest) + r1) && q == next + (Before(rest) + r2)
    ensures p == done + (seg + ("/" + (Before(rest) + r1))) && q == done + (seg + ("/" + (Before(rest) + r2)))
    ensures |done| + |Before([seg] + rest)| == |next| + |Before(rest)|
  {
    BeforeCons(seg, rest);
    Reassociate(done, seg, Before(rest), r1);
    Reassociate(done, seg, Before(rest), r2);
  }

  lemma {:induction false} LaterBrackets(seg: string, rest: seq<string>, r1: string, r2: string)
    requires Closed(seg) || (!(']' in r1 || ']' in r2) && NoBracketIn(rest))
    ensures Closed(seg) || (']' !in Before(rest) + r1 && ']' !in Before(rest) + r2)
  {
    if !Closed(seg) { NoBracketBefore(rest); }
  }

  lemma {:induction false} BeforeCons(seg: string, rest: seq<string>)
    ensures Before([seg] + rest) == seg + "/" + Before(rest)
  {
    assert ([seg] + rest)[1..] == rest;
  }

  lemma {:induction false} NoBracketBefore(xs: seq<string>)
    requires NoBracketIn(xs)
    ensures ']' !in Before(xs) && ']' !in Join(xs)
  {
    if xs != [] {
      NoBracketBefore(xs[1..]);
      BeforeCons(xs[0], xs[1..]);
      assert [xs[0]] + xs[1..] == xs;
    }
  }

  /** Removing one of two adjacent "**" segments, behind tokens that no class reaches over. */
  lemma {:induction false} CollapsePlain(pre: string, tail: string, i: nat, t: string, j: nat)
    requires EndsSegment(pre) && StartsWithDoubleStar(tail) && i <= |pre| && j <= |t|
    requires SameTokens(pre + "**/" + tail, pre + tail, |pre|, i) && Accepts(pre + "**/" + tail, i, t, j)
    ensures Accepts(pre + tail, i, t, j)
    decreases |pre| - i + |t| - j
  {
    var p, q, n := pre + "**/" + tail, pre + tail, |pre|;
    if i == n {
      CollapseAccepts("", tail, 0, t, j) by { TailAccepts(pre, tail, t, j); }
      SameSuffixAccepts(q, n, "" + tail, 0, t, j);
    } else if TokenAt(p, i).Star? {
      if Accepts(p, i + 1, t, j) {
        CollapsePlain(pre, tail, i + 1, t, j);
      } else {
        CollapsePlain(pre, tail, i, t, j + 1);
      }
    } else {
      CollapsePlain(pre, tail, NextAt(p, i), t, j + 1);
    }
  }

  lemma {:induction false} TailAccepts(pre: string, tail: string, t: string, j: nat)
    requires j <= |t| && Accepts(pre + "**/" + tail, |pre|, t, j)
    ensures Accepts("" + "**/" + tail, 0, t, j)
  {
    SameSuffixAccepts(pre + "**/" + tail, |pre|, "" + "**/" + tail, 0, t, j);
  }

  lemma {:induction false} NoSplitTail(s: string, rest: seq<string>)
    requires NoSplitClass([s] + rest)
    ensures NoSplitClass(rest) && (Closed(s) || NoBracketIn(rest))
  {
    var all := [s] + rest;
    forall i, j | 0 <= i < j < |rest| ensures Closed(rest[i]) || ']' !in rest[j] {
      assert all[i + 1] == rest[i] && all[j + 1] == rest[j];
    }
    forall j | 0 <= j < |rest| ensures Closed(s) || ']' !in rest[j] {
      assert all[0] == s && all[j + 1] == rest[j];
    }
  }

  lemma {:induction false} NoSplitCons(s: string, rest: seq<string>)
    requires NoSplitClass(rest) && (Closed(s) || NoBracketIn(rest))
    ensures NoSplitClass([s] + rest)
  {
    var all := [s] + rest;
    assert forall i :: 0 < i < |all| ==> all[i] == rest[i - 1];
  }

  lemma {:induction false} NoSplitIsPlain(xs: seq<string>, more: seq<string>, bracketInRest: bool)
    requires NoSplitClass(xs + more) && (NoBracketIn(more) ==> !bracketInRest)
    ensures PlainPrefix(xs, bracketInRest)
  {
    if xs != [] {
      assert xs + more == [xs[0]] + (xs[1..] + more);
      NoSplitTail(xs[0], xs[1..] + more);
      NoSplitIsPlain(xs[1..], more, bracketInRest);
      NoBracketParts(xs[1..], more);
    }
  }

  lemma {:induction false} NoBracketParts(xs: seq<string>, ys: seq<string>)
    ensures NoBracketIn(xs + ys) <==> NoBracketIn(xs) && NoBracketIn(ys)
  {
    var all := xs + ys;
    if NoBracketIn(all) {
      assert forall j :: 0 <= j < |xs| ==> all[j] == xs[j];
      assert forall j :: 0 <= j < |ys| ==> all[|xs| + j] == ys[j];
    }
  }

  lemma {:induction false} NoSplitDrop(xs: seq<string>, s: string, ys: seq<string>)
    requires NoSplitClass(xs + ([s] + ys))
    ensures NoSplitClass(xs + ys)
  {
    if xs == [] {
      assert xs + ([s] + ys) == [s] + ys && xs + ys == ys;
      NoSplitTail(s, ys);
    } else {
      var x, rest := xs[0], xs[1..];
      assert xs + ([s] + ys) == [x] + (rest + ([s] + ys)) && xs + ys == [x] + (rest + ys);
      NoSplitTail(x, rest + ([s] + ys));
      NoSplitDrop(rest, s, ys);
      NoBracketParts(rest, [s] + ys);
      NoBracketParts([s], ys);
      NoBracketParts(rest, ys);
      NoSplitCons(x, rest + ys);
    }
  }

  lemma {:induction false} KeepNoSplit(segs: seq<string>, keep: seq<bool>)
    requires |keep| == |segs| && NoSplitClass(segs)
    ensures NoSplitClass(Keep(segs, keep)) && (NoBracketIn(segs) ==> NoBracketIn(Keep(segs, keep)))
  {
    if segs != [] {
      assert segs == [segs[0]] + segs[1..];
      NoSplitTail(segs[0], segs[1..]);
      KeepNoSplit(segs[1..], keep[1..]);
      var rest := Keep(segs[1..], keep[1..]);
      NoSplitCons(segs[0], rest);
      NoBracketParts([segs[0]], segs[1..]);
      NoBracketParts([segs[0]], rest);
      assert [] + rest == rest;
    }
  }

  /** One collapse, with the lists and their texts named. */
  lemma {:induction false} CollapseClosed(xs: seq<string>, ys: seq<string>, one: seq<string>, two: seq<string>,
                                          t: string)
    requires one == ["**"] + ys && two == ["**"] + one && Matches(Join(xs + two), t) && NoSplitClass(xs + two)
    ensures Matches(Join(xs + one), t)
  {
    var pre, tail := Before(xs), Join(one);
    NamedTexts(xs, one, two);
    BeforeEnds(xs);
    JoinStars(ys);
    BracketsOfTail(one, two, tail);
    NoSplitIsPlain(xs, two, ']' in "**/" + tail || ']' in tail);
    TokensBefore(xs, tail);
    AcceptsIsMatch(pre + "**/" + tail, t);
    CollapsePlain(pre, tail, 0, t, 0);
    AcceptsIsMatch(pre + tail, t);
  }

  lemma {:induction false} TokensBefore(xs: seq<string>, tail: string)
    requires PlainPrefix(xs, ']' in "**/" + tail || ']' in tail)
    ensures SameTokens(Before(xs) + "**/" + tail, Before(xs) + tail, |Before(xs)|, 0)
  {
    var p, q := Before(xs) + "**/" + tail, Before(xs) + tail;
    assert p == "" + (Before(xs) + ("**/" + tail)) && q == "" + (Before(xs) + tail);
    PrefixTokens("", xs, "**/" + tail, tail, p, q, |Before(xs)|);
  }

  lemma {:induction false} BracketsOfTail(one: seq<string>, two: seq<string>, tail: string)
    requires two == ["**"] + one && tail == Join(one)
    ensures NoBracketIn(two) ==> ']' !in "**/" + tail && ']' !in tail
  {
    NoBracketParts(["**"], one);
    if NoBracketIn(one) { NoBracketBefore(one); }
  }

  /** Collapsing every run keeps every string of the language, when no class holds a separator. */
  lemma {:induction false} DedupAcceptsClosed(xs: seq<string>, segs: seq<string>, prev: bool, t: string)
    requires NoSplitClass(xs + segs) && (prev ==> xs != [] && xs[|xs| - 1] == "**")
    requires Matches(Join(xs + segs), t)
    ensures Matches(Join(xs + Dedup(segs, prev)), t)
    decreases |segs|
  {
    if segs != [] {
      var s, rest := segs[0], segs[1..];
      assert segs == [s] + rest;
      if s == "**" && prev {
        var n := |xs| - 1;
        var one := ["**"] + rest;
        assert xs + segs == xs[..n] + (["**"] + one) && xs + rest == xs[..n] + one;
        CollapseClosed(xs[..n], rest, one, ["**"] + one, t);
        NoSplitDrop(xs, s, rest);
        DedupAcceptsClosed(xs, rest, true, t);
      } else {
        assert xs + segs == xs + [s] + rest;
        assert xs + Dedup(segs, prev) == xs + [s] + Dedup(rest, s == "**");
        DedupAcceptsClosed(xs + [s], rest, s == "**", t);
      }
    }
  }

  /** What keeps a doubled "**" from meaning more than a single one: that no class holds a separator, or
      that none could hold it between two empty ranges. */
  ghost predicate Clear(segs: seq<string>) {
    NoSplitClass(segs) || NoBackwardRange(segs)
  }

  // ----- Choices on the pattern against choices on the collapsed pattern -----

  /** IsVariant, read from the front: `runs` more "**" may be missing. */
  predicate VariantFrom(segs: seq<string>, keep: seq<bool>, runs: nat)
    requires |keep| == |segs|
  {
    segs == [] ||
    if segs[0] != "**" then keep[0] && VariantFrom(segs[1..], keep[1..], runs)
    else (keep[0] || runs > 0) && VariantFrom(segs[1..], keep[1..], if runs > 0 then runs - 1 else 0)
  }

  lemma {:induction false} PositionsCons(segs: seq<string>, i: nat)
    requires i < |segs|
    ensures |StarPositions(segs, i + 1)| == (if segs[0] == "**" then 1 else 0) + |StarPositions(segs[1..], i)|
  {
    if i > 0 {
      PositionsCons(segs, i - 1);
      assert segs[1..][i - 1] == segs[i];
    }
  }

  lemma {:induction false} VariantFromFront(segs: seq<string>, keep: seq<bool>, runs: nat)
    requires |keep| == |segs|
    ensures VariantFrom(segs, keep, runs) <==>
            forall i :: 0 <= i < |segs| && !keep[i] ==> segs[i] == "**" && |StarPositions(segs, i)| < runs
  {
    if segs != [] {
      var rest, more := segs[1..], if segs[0] == "**" then (if runs > 0 then runs - 1 else 0) else runs;
      VariantFromFront(rest, keep[1..], more);
      forall i | 0 <= i < |rest|
        ensures rest[i] == segs[i + 1] && keep[1..][i] == keep[i + 1]
        ensures |StarPositions(segs, i + 1)| == (if segs[0] == "**" then 1 else 0) + |StarPositions(rest, i)|
      {
        PositionsCons(segs, i);
      }
      if VariantFrom(segs, keep, runs) {
        forall i | 0 <= i < |segs| && !keep[i] ensures segs[i] == "**" && |StarPositions(segs, i)| < runs {
          if i > 0 { assert !keep[1..][i - 1]; }
        }
      }
      if forall i :: 0 <= i < |segs| && !keep[i] ==> segs[i] == "**" && |StarPositions(segs, i)| < runs {
        forall i | 0 <= i < |rest| && !keep[1..][i] ensures rest[i] == "**" && |StarPositions(rest, i)| < more {
          assert !keep[i + 1];
        }
      }
    }
  }

  /** The choice on the collapsed pattern that a choice on the pattern amounts to. */
  function MaskOf(segs: seq<string>, keep: seq<bool>, prev: bool): (m: seq<bool>)
    requires |keep| == |segs|
    ensures |m| == |Dedup(segs, prev)|
  {
    if segs == [] then []
    else if segs[0] == "**" && prev then MaskOf(segs[1..], keep[1..], true)
    else [if segs[0] == "**" then RunKept(segs, keep) else keep[0]] + MaskOf(segs[1..], keep[1..], segs[0] == "**")
  }

  lemma {:induction false} MaskIsVariant(segs: seq<string>, keep: seq<bool>, prev: bool, runs: nat)
    requires |keep| == |segs| && Allowed(segs, keep, prev, runs)
    ensures VariantFrom(Dedup(segs, prev), MaskOf(segs, keep, prev), runs)
  {
    if segs == [] {
    } else if segs[0] == "**" && prev {
      MaskIsVariant(segs[1..], keep[1..], true, runs);
    } else {
      var less := if segs[0] == "**" then (if runs > 0 then runs - 1 else 0) else runs;
      MaskIsVariant(segs[1..], keep[1..], segs[0] == "**", less);
      assert Dedup(segs, prev)[1..] == Dedup(segs[1..], segs[0] == "**");
      assert MaskOf(segs, keep, prev)[1..] == MaskOf(segs[1..], keep[1..], segs[0] == "**");
    }
  }

  /** Dropping and then collapsing is collapsing and then dropping; `prev` runs are half read. */
  lemma {:induction false} DedupOfKeep(segs: seq<string>, keep: seq<bool>, prev: bool)
    requires DropsOnlyStars(segs, keep)
    ensures Dedup(Keep(segs, keep), prev) == Keep(Dedup(segs, prev), MaskOf(segs, keep, prev))
    ensures var head: seq<string> := if RunKept(segs, keep) then ["**"] else [];
            prev ==> Dedup(Keep(segs, keep), false) == head + Keep(Dedup(segs, true), MaskOf(segs, keep, true))
  {
    if segs != [] {
      var s, rest, keeps := segs[0], segs[1..], keep[1..];
      var kept := Keep(rest, keeps);
      DedupOfKeep(rest, keeps, s == "**");
      assert ([s] + kept)[1..] == kept && [] + kept == kept;
      assert Dedup(segs, false)[1..] == Dedup(rest, s == "**");
      assert MaskOf(segs, keep, false)[1..] == MaskOf(rest, keeps, s == "**");
      var later := Keep(Dedup(rest, s == "**"), MaskOf(rest, keeps, s == "**"));
      assert [] + later == later;
    }
  }

  /** A choice on the collapsed pattern, as a choice on the pattern: of each run, at most the
      first segment stays. */
  function Expand(segs: seq<string>, m: seq<bool>, prev: bool): (keep: seq<bool>)
    requires |m| == |Dedup(segs, prev)|
    ensures |keep| == |segs|
  {
    if segs == [] then []
    else if segs[0] == "**" && prev then [false] + Expand(segs[1..], m, true)
    else [m[0]] + Expand(segs[1..], m[1..], segs[0] == "**")
  }

  lemma {:induction false} ExpandAllowed(segs: seq<string>, m: seq<bool>, prev: bool, runs: nat)
    requires |m| == |Dedup(segs, prev)| && VariantFrom(Dedup(segs, prev), m, runs)
    ensures Allowed(segs, Expand(segs, m, prev), prev, runs)
    ensures Keep(segs, Expand(segs, m, prev)) == Keep(Dedup(segs, prev), m)
  {
    if segs == [] {
    } else if segs[0] == "**" && prev {
      ExpandAllowed(segs[1..], m, true, runs);
      assert Expand(segs, m, prev)[1..] == Expand(segs[1..], m, true);
      assert [] + Keep(segs[1..], Expand(segs[1..], m, true)) == Keep(segs[1..], Expand(segs[1..], m, true));
    } else {
      var less := if segs[0] == "**" then (if runs > 0 then runs - 1 else 0) else runs;
      assert Dedup(segs, prev)[1..] == Dedup(segs[1..], segs[0] == "**");
      ExpandAllowed(segs[1..], m[1..], segs[0] == "**", less);
      assert Expand(segs, m, prev)[1..] == Expand(segs[1..], m[1..], segs[0] == "**");
    }
  }

  lemma {:induction false} AllowedDropsStars(segs: seq<string>, keep: seq<bool>, prev: bool, runs: nat)
    requires |keep| == |segs| && Allowed(segs, keep, prev, runs)
    ensures DropsOnlyStars(segs, keep)
  {
    if segs != [] {
      if segs[0] != "**" {
        AllowedDropsStars(segs[1..], keep[1..], false, runs);
      } else if prev {
        AllowedDropsStars(segs[1..], keep[1..], true, runs);
      } else {
        AllowedDropsStars(segs[1..], keep[1..], true, if runs > 0 then runs - 1 else 0);
      }
      forall i | 0 <= i < |segs| && segs[i] != "**" ensures keep[i] {
        if i > 0 { assert segs[1..][i - 1] != "**" && keep[1..][i - 1] == keep[i]; }
      }
    }
  }

  lemma {:induction false} FewRunsAllowed(segs: seq<string>, keep: seq<bool>, prev: bool, runs: nat)
    requires DropsOnlyStars(segs, keep) && RunCount(segs, prev) <= runs
    ensures Allowed(segs, keep, prev, runs)
  {
    if segs != [] {
      assert DropsOnlyStars(segs[1..], keep[1..]);
      FewRunsAllowed(segs[1..], keep[1..], segs[0] == "**",
                     if segs[0] == "**" && !prev then runs - 1 else runs);
    }
  }

  // ----- The theorems -----

  /** Whatever globMatch accepts is matched after dropping some of the pattern's "**" segments:
      for every pattern, and dropping whole runs only among the first twelve. */
  lemma {:induction false} AcceptsOnlyDrops(pattern: string, t: string)
    requires GlobAccepts(pattern, t)
    ensures SomeAllowedDropMatches(pattern, t)
    ensures SomeDropMatches(pattern, t)
  {
    var segs := Split(pattern);
    var m :| IsVariant(Dedup(segs), m) && Matches(Join(Keep(Dedup(segs), m)), t);
    VariantFromFront(Dedup(segs), m, MAX_SEGMENTS);
    ExpandAllowed(segs, m, false, MAX_SEGMENTS);
    var keep := Expand(segs, m, false);
    assert Allowed(segs, keep, false, MAX_SEGMENTS) && Matches(Join(Keep(segs, keep)), t);
    AllowedDropsStars(segs, keep, false, MAX_SEGMENTS);
  }

  /** Nothing is lost by collapsing: an allowed drop that matches is found. */
  lemma {:induction false} AllowedDropsAccepted(pattern: string, t: string)
    requires Clear(Split(pattern)) && SomeAllowedDropMatches(pattern, t)
    ensures GlobAccepts(pattern, t)
  {
    var segs := Split(pattern);
    var keep :| |keep| == |segs| && Allowed(segs, keep, false, MAX_SEGMENTS) && Matches(Join(Keep(segs, keep)), t);
    var m := MaskOf(segs, keep, false);
    AllowedDropsStars(segs, keep, false, MAX_SEGMENTS);
    KeptCollapses(segs, keep, t);
    DedupOfKeep(segs, keep, false);
    MaskIsVariant(segs, keep, false, MAX_SEGMENTS);
    VariantFromFront(Dedup(segs), m, MAX_SEGMENTS);
  }

  lemma {:induction false} KeptCollapses(segs: seq<string>, keep: seq<bool>, t: string)
    requires Clear(segs) && DropsOnlyStars(segs, keep) && Matches(Join(Keep(segs, keep)), t)
    ensures Matches(Join(Dedup(Keep(segs, keep))), t)
  {
    var kept := Keep(segs, keep);
    assert [] + kept == kept && [] + Dedup(kept) == Dedup(kept);
    if NoSplitClass(segs) {
      KeepNoSplit(segs, keep);
      DedupAcceptsClosed([], kept, false, t);
    } else {
      KeepNoBackward(segs, keep, false, 0, 0, false);
      DedupAccepts([], kept, false, false, false, t);
    }
  }

  /** With at most twelve runs of "**", globMatch accepts exactly what some choice of dropped
      "**" segments matches. */
  lemma {:induction false} GlobIsSomeDrop(pattern: string, t: string)
    requires Clear(Split(pattern)) && RunCount(Split(pattern)) <= MAX_SEGMENTS
    ensures GlobAccepts(pattern, t) <==> SomeDropMatches(pattern, t)
  {
    if GlobAccepts(pattern, t) { AcceptsOnlyDrops(pattern, t); }
    if SomeDropMatches(pattern, t) {
      var segs := Split(pattern);
      var keep :| DropsOnlyStars(segs, keep) && Matches(Join(Keep(segs, keep)), t);
      FewRunsAllowed(segs, keep, false, MAX_SEGMENTS);
      AllowedDropsAccepted(pattern, t);
    }
  }

  // ----- The two limits -----

  predicate NoSlash(s: string) {
    '/' !in s
  }

  lemma {:induction false} SplitPlain(s: string)
    requires NoSlash(s)
    ensures Split(s) == [s]
  {
    if s != "" {
      SplitPlain(s[1..]);
      assert s == [s[0]] + s[1..];
    }
  }

  lemma {:induction false} SplitHead(s: string, t: string)
    requires NoSlash(s)
    ensures Split(s + "/" + t) == [s] + Split(t)
  {
    var u := s + "/" + t;
    if s == "" {
      assert u[1..] == t;
    } else {
      SplitHead(s[1..], t);
      assert u[1..] == s[1..] + "/" + t;
      assert s == [s[0]] + s[1..];
    }
  }

  lemma {:induction false} SplitJoin(segs: seq<string>)
    requires segs != [] && forall i :: 0 <= i < |segs| ==> NoSlash(segs[i])
    ensures Split(Join(segs)) == segs
  {
    if |segs| == 1 {
      SplitPlain(segs[0]);
    } else {
      SplitJoin(segs[1..]);
      SplitHead(segs[0], Join(segs[1..]));
    }
  }

  /** A pattern without escapes and classes. */
  predicate StarsOnly(p: string) {
    '\\' !in p && '[' !in p && '?' !in p
  }

  function Slashes(s: string): nat {
    if s == "" then 0 else (if s[0] == '/' then 1 else 0) + Slashes(s[1..])
  }

  lemma {:induction false} SlashesNeeded(p: string, i: nat, s: string, j: nat)
    requires StarsOnly(p) && i <= |p| && j <= |s| && Accepts(p, i, s, j)
    ensures Slashes(p[i..]) <= Slashes(s[j..])
    decreases |p| - i + |s| - j
  {
    if i < |p| {
      assert p[i] in p;
      assert p[i..][1..] == p[i + 1..];
      if j < |s| { assert s[j..][1..] == s[j + 1..]; }
      if p[i] == '*' {
        if Accepts(p, i + 1, s, j) { SlashesNeeded(p, i + 1, s, j); } else { SlashesNeeded(p, i, s, j + 1); }
      } else {
        SlashesNeeded(p, i + 1, s, j + 1);
      }
    }
  }

  lemma {:induction false} SlashesOfConcat(a: string, b: string)
    ensures Slashes(a + b) == Slashes(a) + Slashes(b)
  {
    if a == "" { assert a + b == b; } else { SlashesOfConcat(a[1..], b); assert (a + b)[1..] == a[1..] + b; }
  }

  /** Segments of "**" and "a" only. */
  predicate Simple(segs: seq<string>) {
    forall i :: 0 <= i < |segs| ==> segs[i] == "**" || segs[i] == "a"
  }

  lemma {:induction false} SimpleJoin(segs: seq<string>)
    requires Simple(segs)
    ensures StarsOnly(Join(segs)) && Slashes(Join(segs)) == (if segs == [] then 0 else |segs| - 1)
  {
    if |segs| >= 1 { assert Slashes("**") == 0 && Slashes("a") == 0; }
    if |segs| > 1 {
      SimpleJoin(segs[1..]);
      SlashesOfConcat(segs[0] + "/", Join(segs[1..]));
      SlashesOfConcat(segs[0], "/");
    }
  }

  lemma {:induction false} KeepSimple(segs: seq<string>, keep: seq<bool>, runs: nat)
    requires Simple(segs) && |keep| == |segs| && VariantFrom(segs, keep, runs)
    ensures Simple(Keep(segs, keep)) && |Keep(segs, keep)| + runs >= |segs|
  {
    if segs != [] {
      KeepSimple(segs[1..], keep[1..], if segs[0] == "**" then (if runs > 0 then runs - 1 else 0) else runs);
    }
  }

  /** "**", "a" repeated n times, and n times "a". */
  function Alternating(n: nat): (r: seq<string>)
    ensures Simple(r) && |r| == 2 * n
  {
    if n == 0 then [] else ["**", "a"] + Alternating(n - 1)
  }

  function Repeated(n: nat): (r: seq<string>)
    ensures Simple(r) && |r| == n && forall i :: 0 <= i < n ==> r[i] == "a"
  {
    if n == 0 then [] else ["a"] + Repeated(n - 1)
  }

  lemma {:induction false} AlternatingRuns(n: nat)
    ensures Dedup(Alternating(n)) == Alternating(n) && RunCount(Alternating(n)) == n
  {
    if n > 0 {
      AlternatingRuns(n - 1);
      var rest := Alternating(n - 1);
      assert Alternating(n)[1..] == ["a"] + rest && (["a"] + rest)[1..] == rest;
      assert Dedup(["a"] + rest, true) == ["a"] + rest && RunCount(["a"] + rest, true) == n - 1;
    }
  }

  lemma {:induction false} AlternatingForward(n: nat, stars: nat)
    ensures NoBackwardRange(Alternating(n), false, stars, false)
  {
    if n > 0 {
      var rest := Alternating(n - 1);
      AlternatingForward(n - 1, 0);
      assert Alternating(n)[1..] == ["a"] + rest && (["a"] + rest)[1..] == rest;
      assert !HasPlainBracket("a");
      assert NoBackwardRange(["a"] + rest, false, stars + 1, false);
    }
  }

  /** The choice that drops every "**". */
  function DropAll(n: nat): (keep: seq<bool>)
    ensures |keep| == 2 * n
  {
    if n == 0 then [] else [false, true] + DropAll(n - 1)
  }

  lemma {:induction false} DropAllKeeps(n: nat)
    ensures DropsOnlyStars(Alternating(n), DropAll(n)) && Keep(Alternating(n), DropAll(n)) == Repeated(n)
  {
    if n > 0 {
      DropAllKeeps(n - 1);
      var rest, keeps := Alternating(n - 1), DropAll(n - 1);
      assert Alternating(n)[1..] == ["a"] + rest && (["a"] + rest)[1..] == rest;
      assert DropAll(n)[1..] == [true] + keeps && ([true] + keeps)[1..] == keeps;
      assert Keep(["a"] + rest, [true] + keeps) == ["a"] + Keep(rest, keeps);
      forall i | 0 <= i < 2 * n && Alternating(n)[i] != "**" ensures DropAll(n)[i] {
        if i >= 2 { assert Alternating(n)[i] == rest[i - 2] && DropAll(n)[i] == keeps[i - 2]; }
      }
    }
  }

  lemma {:induction false} PlainAccepts(s: string, j: nat)
    requires StarsOnly(s) && '*' !in s && j <= |s|
    ensures Accepts(s, j, s, j)
    decreases |s| - j
  {
    if j < |s| {
      assert s[j] in s;
      PlainAccepts(s, j + 1);
    }
  }

  lemma {:induction false} RepeatedPlain(n: nat)
    ensures '*' !in Join(Repeated(n))
  {
    if n > 1 { RepeatedPlain(n - 1); assert Repeated(n)[1..] == Repeated(n - 1); }
  }

  lemma {:induction false} BeyondTwelve(n: nat)
    requires n > MAX_SEGMENTS
    ensures var p, t := Join(Alternating(n)), Join(Repeated(n));
            && RunCount(Split(p)) == n && NoBackwardRange(Split(p))
            && SomeDropMatches(p, t) && !GlobAccepts(p, t)
  {
    var segs := Alternating(n);
    var p, t := Join(segs), Join(Repeated(n));
    SplitJoin(segs);
    AlternatingRuns(n);
    AlternatingForward(n, 0);
    DropAllKeeps(n);
    SimpleJoin(Repeated(n));
    RepeatedPlain(n);
    PlainAccepts(t, 0);
    AcceptsIsMatch(t, t);
    forall m | IsVariant(segs, m) ensures !Matches(Join(Keep(segs, m)), t) {
      VariantFromFront(segs, m, MAX_SEGMENTS);
      KeepSimple(segs, m, MAX_SEGMENTS);
      var v := Join(Keep(segs, m));
      SimpleJoin(Keep(segs, m));
      AcceptsIsMatch(v, t);
      assert v[0..] == v && t[0..] == t;
      if Accepts(v, 0, t, 0) { SlashesNeeded(v, 0, t, 0); }
    }
  }

  /** What globMatch promises about "**" holds of all patterns with n runs exactly when n <= 12. */
  lemma {:induction false} TwelveIsTheLimit(n: nat)
    ensures n <= MAX_SEGMENTS <==>
            forall p, t :: RunCount(Split(p)) == n && Clear(Split(p))
                           ==> (GlobAccepts(p, t) <==> SomeDropMatches(p, t))
  {
    if n <= MAX_SEGMENTS {
      forall p, t | RunCount(Split(p)) == n && Clear(Split(p))
        ensures GlobAccepts(p, t) <==> SomeDropMatches(p, t)
      {
        GlobIsSomeDrop(p, t);
      }
    } else {
      BeyondTwelve(n);
    }
  }

  lemma {:induction false} OneClassMatches(p: string, body: ClassBody, c: char)
    requires |p| > 0 && p[0] == '[' && ClassAt(p, 0) == Some(body) && body.next == |p| && !IsNegated(p, 0)
    ensures Matches(p, [c]) <==> InRanges(body.ranges, c)
  {
    AcceptsIsMatch(p, [c]);
    assert Accepts(p, |p|, [c], 1);
  }

  lemma {:induction false} ClassNext(p: string, k: nat, first: bool, e: nat, r: Range)
    requires k < |p| && (p[k] != ']' || first) && MemberEnd(p, k) == e && MemberRange(p, k) == r
    ensures ClassMembers(p, k, first) == After([r], ClassMembers(p, e, false))
  {
  }

  lemma {:induction false} JoinCons(x: string, ys: seq<string>)
    requires ys != []
    ensures Join([x] + ys) == x + "/" + Join(ys)
  {
    assert ([x] + ys)[1..] == ys;
  }

  // ----- The family of patterns around the other limit -----

  function Stars(n: nat): (r: seq<string>)
    ensures |r| == n && forall k :: 0 <= k < n ==> r[k] == "**"
  {
    if n == 0 then [] else ["**"] + Stars(n - 1)
  }

  function FirstOf(x: char): string {
    ['[', x, '-']
  }

  function LastOf(y: char): string {
    ['-', y, ']']
  }

  /** "[x-", n times "**", and "-y]". */
  function BackwardSegs(x: char, y: char, n: nat): seq<string> {
    [FirstOf(x)] + (Stars(n) + [LastOf(y)])
  }

  lemma {:induction false} SplitBackward(x: char, y: char, n: nat)
    requires x != '/' && y != '/'
    ensures Split(Join(BackwardSegs(x, y, n))) == BackwardSegs(x, y, n)
  {
    var segs := BackwardSegs(x, y, n);
    forall i | 0 <= i < |segs| ensures NoSlash(segs[i]) {
      assert segs[i] in [FirstOf(x), "**", LastOf(y)];
    }
    SplitJoin(segs);
  }

  lemma {:induction false} StarsCons(n: nat, z: string)
    requires n > 0
    ensures Stars(n) + [z] == ["**"] + (Stars(n - 1) + [z])
    ensures (Stars(n) + [z])[0] == "**" && (Stars(n) + [z])[1..] == Stars(n - 1) + [z]
  {
  }

  lemma {:induction false} DedupStars(n: nat, z: string, prev: bool)
    requires z != "**"
    ensures Dedup(Stars(n) + [z], prev) == if n == 0 || prev then [z] else ["**"] + [z]
    ensures RunCount(Stars(n) + [z], prev) == if n == 0 || prev then 0 else 1
  {
    if n == 0 {
      assert Stars(0) + [z] == [z] && [z][1..] == [];
    } else {
      StarsCons(n, z);
      DedupStars(n - 1, z, true);
    }
  }

  lemma {:induction false} DedupBackward(x: char, y: char, n: nat)
    ensures RunCount(BackwardSegs(x, y, n)) <= 1
    ensures n >= 1 ==> Dedup(BackwardSegs(x, y, n)) == BackwardSegs(x, y, 1)
  {
    DedupStars(n, LastOf(y), false);
    DedupStars(1, LastOf(y), false);
    var segs := BackwardSegs(x, y, n);
    assert segs[0] == FirstOf(x) && segs[1..] == Stars(n) + [LastOf(y)];
    StarsCons(1, LastOf(y));
    assert Stars(0) + [LastOf(y)] == [LastOf(y)];
  }

  /** The condition on the two runes. */
  predicate HidesSeparator(x: char, y: char) {
    y < '/' < x && x != '\\' && x != '^'
  }

  lemma {:induction false} FirstSegment(x: char)
    ensures OpensBackward(FirstOf(x)) && HasPlainBracket(FirstOf(x)) ==> x > '/' && x != '\\' && x != '^'
  {
    var s := FirstOf(x);
    assert s[..2] == ['[', x];
  }

  lemma {:induction false} StarsForward(n: nat, z: string, open: bool, stars: nat, bracket: bool)
    requires z != "**" && (stars + n < 2 || !(open && bracket && ClosesBackward(z)))
    ensures NoBackwardRange(Stars(n) + [z], open, stars, bracket)
  {
    if n == 0 {
      assert Stars(0) + [z] == [z] && [z][1..] == [];
    } else {
      StarsCons(n, z);
      StarsForward(n - 1, z, open, stars + 1, bracket);
    }
  }

  lemma {:induction false} NothingHidden(x: char, y: char, n: nat)
    requires n < 2 || !HidesSeparator(x, y)
    ensures Clear(BackwardSegs(x, y, n))
  {
    var first, last := FirstOf(x), LastOf(y);
    var segs := BackwardSegs(x, y, n);
    assert segs[0] == first && segs[1..] == Stars(n) + [last];
    FirstSegment(x);
    assert ClosesBackward(last) ==> y < '/';
    StarsForward(n, last, OpensBackward(first), 0, HasPlainBracket(first));
  }

  /** The choice that keeps the first m of n "**", and what follows. */
  function FirstKept(n: nat, m: nat): (keep: seq<bool>)
    ensures |keep| == n + 1 && keep[n]
  {
    if n == 0 then [true] else [m > 0] + FirstKept(n - 1, if m > 0 then m - 1 else 0)
  }

  lemma {:induction false} KeepStars(n: nat, m: nat, z: string)
    requires m <= n
    ensures Keep(Stars(n) + [z], FirstKept(n, m)) == Stars(m) + [z]
  {
    if n == 0 {
      assert Stars(0) + [z] == [z] && [z][1..] == [];
      assert Keep([z][1..], FirstKept(0, m)[1..]) == [];
    } else {
      var fewer := if m > 0 then m - 1 else 0;
      StarsCons(n, z);
      KeepStars(n - 1, fewer, z);
      assert FirstKept(n, m)[1..] == FirstKept(n - 1, fewer);
      if m > 0 { StarsCons(m, z); } else { assert [] + (Stars(0) + [z]) == Stars(0) + [z]; }
    }
  }

  lemma {:induction false} KeepBackward(x: char, y: char, n: nat, m: nat)
    requires m <= n
    ensures var segs, keep := BackwardSegs(x, y, n), [true] + FirstKept(n, m);
      DropsOnlyStars(segs, keep) && Keep(segs, keep) == BackwardSegs(x, y, m)
  {
    var segs, keep := BackwardSegs(x, y, n), [true] + FirstKept(n, m);
    KeepStars(n, m, LastOf(y));
    assert segs[1..] == Stars(n) + [LastOf(y)] && keep[1..] == FirstKept(n, m);
    forall i | 0 <= i < |segs| && segs[i] != "**" ensures keep[i] {
      assert i == 0 || i == n + 1;
    }
  }

  lemma {:induction false} JoinBackward(x: char, y: char)
    ensures Join(BackwardSegs(x, y, 0)) == ['[', x] + "-/-" + [y, ']']
    ensures Join(BackwardSegs(x, y, 1)) == ['[', x] + "-/**/-" + [y, ']']
    ensures Join(BackwardSegs(x, y, 2)) == ['[', x] + "-/**/**/-" + [y, ']']
  {
    var first, last := FirstOf(x), LastOf(y);
    assert Stars(0) + [last] == [last];
    StarsCons(1, last);
    StarsCons(2, last);
    JoinCons("**", Stars(0) + [last]);
    JoinCons("**", Stars(1) + [last]);
    JoinCons(first, Stars(0) + [last]);
    JoinCons(first, Stars(1) + [last]);
    JoinCons(first, Stars(2) + [last]);
  }

  lemma {:induction false} WithTwo(x: char, y: char, p: string)
    requires HidesSeparator(x, y) && p == ['[', x] + "-/**/**/-" + [y, ']']
    ensures Matches(p, "/")
  {
    ClassNext(p, 1, true, 4, Range(x, '/'));
    ClassNext(p, 4, false, 5, Range('*', '*'));
    ClassNext(p, 5, false, 6, Range('*', '*'));
    SecondStars(x, y, p);
    var body := ClassAt(p, 0).value;
    assert body.ranges[3] == Range('/', '/');
    OneClassMatches(p, body, '/');
  }

  lemma {:induction false} SecondStars(x: char, y: char, p: string)
    requires HidesSeparator(x, y) && p == ['[', x] + "-/**/**/-" + [y, ']']
    ensures var rest := ClassMembers(p, 6, false);
      rest.Some? && rest.value.next == |p| && rest.value.ranges != [] && rest.value.ranges[0] == Range('/', '/')
  {
    ClassNext(p, 6, false, 7, Range('/', '/'));
    ClassNext(p, 7, false, 8, Range('*', '*'));
    ClassNext(p, 8, false, 9, Range('*', '*'));
    ClassNext(p, 9, false, 12, Range('/', y));
  }

  lemma {:induction false} WithOne(x: char, y: char, p: string)
    requires HidesSeparator(x, y) && p == ['[', x] + "-/**/-" + [y, ']']
    ensures !Matches(p, "/")
  {
    ClassNext(p, 1, true, 4, Range(x, '/'));
    ClassNext(p, 4, false, 5, Range('*', '*'));
    ClassNext(p, 5, false, 6, Range('*', '*'));
    ClassNext(p, 6, false, 9, Range('/', y));
    OneClassMatches(p, ClassAt(p, 0).value, '/');
  }

  lemma {:induction false} WithNone(x: char, y: char, p: string)
    requires HidesSeparator(x, y) && p == ['[', x] + "-/-" + [y, ']']
    ensures !Matches(p, "/")
  {
    ClassNext(p, 1, true, 4, Range(x, '/'));
    ClassNext(p, 4, false, 5, Range('-', '-'));
    ClassNext(p, 5, false, 6, Range(y, y));
    OneClassMatches(p, ClassAt(p, 0).value, '/');
  }

  lemma {:induction false} BackwardForms(x: char, y: char, m: seq<bool>)
    requires IsVariant(BackwardSegs(x, y, 1), m)
    ensures Keep(BackwardSegs(x, y, 1), m) == BackwardSegs(x, y, if m[1] then 1 else 0)
  {
    var segs := BackwardSegs(x, y, 1);
    var last := LastOf(y);
    StarsCons(1, last);
    assert Stars(0) + [last] == [last];
    assert segs[0] == FirstOf(x) && segs[1] == "**" && segs[2] == last;
    assert m[0] && m[2];
    assert m == [true] + FirstKept(1, if m[1] then 1 else 0);
    KeepBackward(x, y, 1, if m[1] then 1 else 0);
  }

  lemma {:induction false} BackwardNotAccepted(x: char, y: char, n: nat, p: string)
    requires HidesSeparator(x, y) && n >= 1 && p == Join(BackwardSegs(x, y, n)) && Split(p) == BackwardSegs(x, y, n)
    ensures !GlobAccepts(p, "/")
  {
    var segs := BackwardSegs(x, y, 1);
    DedupBackward(x, y, n);
    JoinBackward(x, y);
    WithOne(x, y, Join(segs));
    WithNone(x, y, Join(BackwardSegs(x, y, 0)));
    forall m | IsVariant(segs, m) ensures !Matches(Join(Keep(segs, m)), "/") {
      BackwardForms(x, y, m);
    }
  }

  lemma {:induction false} BackwardDropMatches(x: char, y: char, n: nat, p: string)
    requires HidesSeparator(x, y) && n >= 2 && Split(p) == BackwardSegs(x, y, n)
    ensures SomeDropMatches(p, "/")
  {
    KeepBackward(x, y, n, 2);
    JoinBackward(x, y);
    WithTwo(x, y, Join(BackwardSegs(x, y, 2)));
  }

  /** The other limit, exactly, on the patterns "[x-/", n times "**" and the separator, "-y]": some target is
      lost by the collapse if and only if there are two "**" or more and both ranges are empty, x being no
      escape and no negation mark. */
  lemma {:induction false} BackwardRangeLosesSeparator(x: char, y: char, n: nat)
    requires x != '/' && y != '/'
    ensures var p := Join(BackwardSegs(x, y, n));
      (exists t :: SomeDropMatches(p, t) && !GlobAccepts(p, t)) <==> n >= 2 && HidesSeparator(x, y)
  {
    var p := Join(BackwardSegs(x, y, n));
    SplitBackward(x, y, n);
    DedupBackward(x, y, n);
    if n >= 2 && HidesSeparator(x, y) {
      BackwardDropMatches(x, y, n, p);
      BackwardNotAccepted(x, y, n, p);
    } else {
      NothingHidden(x, y, n);
      forall t | SomeDropMatches(p, t) ensures GlobAccepts(p, t) {
        GlobIsSomeDrop(p, t);
      }
    }
  }
}
