/** The glob matcher of internal/permissions/match.go: what a pattern means, and the
    iterative matcher that backtracks only to the latest star. */
module Wildcard {
  import opened Options

  // ----- What a pattern means -----

  datatype Range = Range(lo: char, hi: char)

  datatype Token = Star | Any | Literal(c: char) | Class(negate: bool, ranges: seq<Range>)

  /** A parsed class: its ranges and the index just past the closing bracket. */
  datatype ClassBody = ClassBody(ranges: seq<Range>, next: nat)

  predicate InRanges(ranges: seq<Range>, c: char) {
    exists k :: 0 <= k < |ranges| && ranges[k].lo <= c <= ranges[k].hi
  }

  /** Index of the class member that starts at k: a backslash that is not the last rune is skipped. */
  function MemberIndex(p: string, k: nat): (a: nat)
    requires k < |p|
    ensures k <= a < |p|
  {
    if p[k] == '\\' && k + 1 < |p| then k + 1 else k
  }

  predicate IsRangeAt(p: string, a: nat) {
    a + 2 < |p| && p[a + 1] == '-' && p[a + 2] != ']'
  }

  /** The class member that starts at k. */
  function MemberRange(p: string, k: nat): Range
    requires k < |p|
  {
    var a := MemberIndex(p, k);
    Range(p[a], if IsRangeAt(p, a) then p[a + 2] else p[a])
  }

  function MemberEnd(p: string, k: nat): (n: nat)
    requires k < |p|
    ensures k < n <= |p|
  {
    var a := MemberIndex(p, k);
    if IsRangeAt(p, a) then a + 3 else a + 1
  }

  /** A class whose first members are already read. */
  function After(seen: seq<Range>, rest: Option<ClassBody>): Option<ClassBody> {
    match rest
    case None => None
    case Some(body) => Some(ClassBody(seen + body.ranges, body.next))
  }

  /** The members of a class from index k on, or None when no bracket closes it. A bracket in
      first position is a member. */
  function ClassMembers(p: string, k: nat, first: bool): (r: Option<ClassBody>)
    requires k <= |p|
    ensures r.Some? ==> k < r.value.next <= |p|
    decreases |p| - k
  {
    if k == |p| then None
    else if p[k] == ']' && !first then Some(ClassBody([], k + 1))
    else After([MemberRange(p, k)], ClassMembers(p, MemberEnd(p, k), false))
  }

  predicate IsNegated(p: string, i: nat) {
    i + 1 < |p| && (p[i + 1] == '!' || p[i + 1] == '^')
  }

  function ClassAt(p: string, i: nat): (r: Option<ClassBody>)
    requires i < |p|
    ensures r.Some? ==> i < r.value.next <= |p|
  {
    ClassMembers(p, if IsNegated(p, i) then i + 2 else i + 1, true)
  }

  /** The token that starts at index i of the pattern. */
  function TokenAt(p: string, i: nat): Token
    requires i < |p|
  {
    match p[i]
    case '*' => Star
    case '?' => Any
    case '\\' => Literal(if i + 1 < |p| then p[i + 1] else '\\')
    case '[' =>
      (match ClassAt(p, i)
       case Some(body) => Class(IsNegated(p, i), body.ranges)
       case None => Literal('['))
    case c => Literal(c)
  }

  /** The index just past that token. */
  function NextAt(p: string, i: nat): (n: nat)
    requires i < |p|
    ensures i < n <= |p|
  {
    match p[i]
    case '\\' => if i + 1 < |p| then i + 2 else i + 1
    case '[' =>
      (match ClassAt(p, i)
       case Some(body) => body.next
       case None => i + 1)
    case _ => i + 1
  }

  function Tokens(p: string, i: nat := 0): seq<Token>
    requires i <= |p|
    decreases |p| - i
  {
    if i == |p| then [] else [TokenAt(p, i)] + Tokens(p, NextAt(p, i))
  }

  /** A single-rune token accepts c. */
  predicate AcceptsRune(t: Token, c: char) {
    match t
    case Star => false
    case Any => true
    case Literal(x) => x == c
    case Class(negate, ranges) => InRanges(ranges, c) != negate
  }

  predicate Fits(t: Token, w: string) {
    t.Star? || (|w| == 1 && AcceptsRune(t, w[0]))
  }

  function Concat(pieces: seq<string>): string {
    if pieces == [] then "" else pieces[0] + Concat(pieces[1..])
  }

  ghost predicate Splits(toks: seq<Token>, pieces: seq<string>, s: string) {
    |pieces| == |toks| && Concat(pieces) == s && forall i :: 0 <= i < |toks| ==> Fits(toks[i], pieces[i])
  }

  /** The language of a pattern: s can be cut into one piece per token, each fitting its token. */
  ghost predicate InLanguage(toks: seq<Token>, s: string) {
    exists pieces :: Splits(toks, pieces, s)
  }

  /** The string is in the language of the pattern. */
  ghost predicate Matches(p: string, s: string) {
    InLanguage(Tokens(p), s)
  }

  // ----- The same language, followed along the two indices -----

  ghost predicate Accepts(p: string, i: nat, s: string, j: nat)
    requires i <= |p| && j <= |s|
    decreases |p| - i + |s| - j
  {
    if i == |p| then j == |s|
    else if TokenAt(p, i).Star? then Accepts(p, i + 1, s, j) || (j < |s| && Accepts(p, i, s, j + 1))
    else j < |s| && AcceptsRune(TokenAt(p, i), s[j]) && Accepts(p, NextAt(p, i), s, j + 1)
  }

  lemma {:induction false} SplitsCons(t: Token, toks: seq<Token>, w: string, pieces: seq<string>, s: string)
    requires Fits(t, w) && Splits(toks, pieces, s)
    ensures Splits([t] + toks, [w] + pieces, w + s)
  {
    assert ([w] + pieces)[1..] == pieces;
  }

  lemma {:induction false} SplitsTail(t: Token, toks: seq<Token>, pieces: seq<string>, s: string)
    requires Splits([t] + toks, pieces, s)
    ensures Fits(t, pieces[0]) && Splits(toks, pieces[1..], s[|pieces[0]|..]) && pieces[0] <= s
  {
    var all := [t] + toks;
    assert Fits(all[0], pieces[0]);
    assert s[|pieces[0]|..] == Concat(pieces[1..]);
    forall i | 0 <= i < |toks| ensures Fits(toks[i], pieces[1..][i]) {
      assert Fits(all[i + 1], pieces[i + 1]);
    }
  }

  lemma {:induction false} AcceptsImpliesLanguage(p: string, i: nat, s: string, j: nat)
    requires i <= |p| && j <= |s| && Accepts(p, i, s, j)
    ensures InLanguage(Tokens(p, i), s[j..])
    decreases |p| - i + |s| - j
  {
    if i == |p| {
      assert Splits([], [], s[j..]);
    } else {
      var t, toks := TokenAt(p, i), Tokens(p, NextAt(p, i));
      if t.Star? && Accepts(p, i + 1, s, j) {
        AcceptsImpliesLanguage(p, i + 1, s, j);
        var pieces :| Splits(toks, pieces, s[j..]);
        SplitsCons(t, toks, "", pieces, s[j..]);
        assert "" + s[j..] == s[j..];
      } else if t.Star? {
        AcceptsImpliesLanguage(p, i, s, j + 1);
        var pieces :| Splits([t] + toks, pieces, s[j + 1..]);
        SplitsTail(t, toks, pieces, s[j + 1..]);
        SplitsCons(t, toks, [s[j]] + pieces[0], pieces[1..], s[j + 1..][|pieces[0]|..]);
        assert [s[j]] + pieces[0] + s[j + 1..][|pieces[0]|..] == s[j..];
      } else {
        AcceptsImpliesLanguage(p, NextAt(p, i), s, j + 1);
        var pieces :| Splits(toks, pieces, s[j + 1..]);
        SplitsCons(t, toks, [s[j]], pieces, s[j + 1..]);
        assert [s[j]] + s[j + 1..] == s[j..];
      }
    }
  }

  lemma {:induction false} LanguageImpliesAccepts(p: string, i: nat, s: string, j: nat, pieces: seq<string>)
    requires i <= |p| && j <= |s| && Splits(Tokens(p, i), pieces, s[j..])
    ensures Accepts(p, i, s, j)
    decreases |p| - i + |s| - j
  {
    if i < |p| {
      var t, toks := TokenAt(p, i), Tokens(p, NextAt(p, i));
      SplitsTail(t, toks, pieces, s[j..]);
      var w := pieces[0];
      if t.Star? && w == "" {
        assert s[j..][0..] == s[j..];
        LanguageImpliesAccepts(p, i + 1, s, j, pieces[1..]);
      } else if t.Star? {
        SplitsCons(t, toks, w[1..], pieces[1..], s[j..][|w|..]);
        assert w[1..] + s[j..][|w|..] == s[j + 1..];
        LanguageImpliesAccepts(p, i, s, j + 1, [w[1..]] + pieces[1..]);
      } else {
        assert s[j..][1..] == s[j + 1..];
        LanguageImpliesAccepts(p, NextAt(p, i), s, j + 1, pieces[1..]);
      }
    }
  }

  /** Following the indices and cutting the string into pieces define the same language. */
  lemma {:induction false} AcceptsIsLanguage(p: string, i: nat, s: string, j: nat)
    requires i <= |p| && j <= |s|
    ensures Accepts(p, i, s, j) <==> InLanguage(Tokens(p, i), s[j..])
  {
    if Accepts(p, i, s, j) { AcceptsImpliesLanguage(p, i, s, j); }
    if InLanguage(Tokens(p, i), s[j..]) {
      var pieces :| Splits(Tokens(p, i), pieces, s[j..]);
      LanguageImpliesAccepts(p, i, s, j, pieces);
    }
  }

  lemma {:induction false} AcceptsIsMatch(p: string, s: string)
    ensures Accepts(p, 0, s, 0) <==> Matches(p, s)
  {
    AcceptsIsLanguage(p, 0, s, 0);
    assert s[0..] == s;
  }

  // ----- The matcher -----

  lemma {:induction false} InRangesSnoc(seen: seq<Range>, r: Range, c: char)
    ensures InRanges(seen + [r], c) <==> InRanges(seen, c) || r.lo <= c <= r.hi
  {
    assert (seen + [r])[|seen|] == r;
    assert forall k :: 0 <= k < |seen| ==> (seen + [r])[k] == seen[k];
  }

  lemma {:induction false} AfterNothing(rest: Option<ClassBody>)
    ensures After([], rest) == rest
  {
    if rest.Some? { assert [] + rest.value.ranges == rest.value.ranges; }
  }

  lemma {:induction false} ClassEnds(p: string, seen: seq<Range>, i: nat)
    requires i < |p| && p[i] == ']'
    ensures After(seen, ClassMembers(p, i, false)) == Some(ClassBody(seen, i + 1))
  {
    assert seen + [] == seen;
  }

  lemma {:induction false} ClassStep(p: string, seen: seq<Range>, i: nat, first: bool) returns (seen': seq<Range>)
    requires i < |p| && (p[i] != ']' || first)
    ensures seen' == seen + [MemberRange(p, i)]
    ensures After(seen, ClassMembers(p, i, first)) == After(seen', ClassMembers(p, MemberEnd(p, i), false))
  {
    seen' := seen + [MemberRange(p, i)];
    match ClassMembers(p, MemberEnd(p, i), false)
    case None =>
    case Some(body) => assert seen + ([MemberRange(p, i)] + body.ranges) == seen' + body.ranges;
  }

  /** matchClass: parses the class at p[pi] and tests c against it. */
  method MatchClass(p: string, pi: nat, c: char) returns (next: nat, matched: bool, valid: bool)
    requires pi < |p|
    ensures valid == ClassAt(p, pi).Some?
    ensures valid ==> next == ClassAt(p, pi).value.next
    ensures valid ==> matched == (InRanges(ClassAt(p, pi).value.ranges, c) != IsNegated(p, pi))
  {
    var i := pi + 1;
    var negate := false;
    if i < |p| && (p[i] == '!' || p[i] == '^') {
      negate := true;
      i := i + 1;
    }
    var first := true;
    matched := false;
    ghost var seen: seq<Range> := [];
    ghost var parsed := ClassAt(p, pi);
    AfterNothing(ClassMembers(p, i, first));
    while i < |p|
      invariant pi < i <= |p|
      invariant matched == InRanges(seen, c)
      invariant parsed == After(seen, ClassMembers(p, i, first))
    {
      if p[i] == ']' && !first {
        ClassEnds(p, seen, i);
        return i + 1, matched != negate, true;
      }
      ghost var start, wasFirst, member := i, first, MemberRange(p, i);
      first := false;
      var lo := p[i];
      if lo == '\\' && i + 1 < |p| {
        i := i + 1;
        lo := p[i];
      }
      var hi := lo;
      if i + 2 < |p| && p[i + 1] == '-' && p[i + 2] != ']' {
        hi := p[i + 2];
        i := i + 2;
      }
      if lo <= c && c <= hi {
        matched := true;
      }
      i := i + 1;
      assert member == Range(lo, hi) && i == MemberEnd(p, start);
      InRangesSnoc(seen, member, c);
      seen := ClassStep(p, seen, start, wasFirst);
    }
    return 0, false, false;
  }

  /** matchOne: matches the single non-star element at p[pi] against c. */
  method MatchOne(p: string, pi: nat, c: char) returns (next: nat, ok: bool)
    requires pi < |p| && p[pi] != '*'
    ensures ok == AcceptsRune(TokenAt(p, pi), c)
    ensures next == NextAt(p, pi)
  {
    match p[pi]
    case '?' =>
      return pi + 1, true;
    case '\\' =>
      if pi + 1 < |p| {
        return pi + 2, p[pi + 1] == c;
      }
      return pi + 1, c == '\\';
    case '[' =>
      var n, matched, valid := MatchClass(p, pi, c);
      if valid {
        return n, matched;
      }
      return pi + 1, c == '[';
    case _ =>
      return pi + 1, p[pi] == c;
  }

  /** Some suffix of s from k on is accepted from pattern index i. */
  ghost predicate AcceptsFrom(p: string, i: nat, s: string, k: nat)
    requires i <= |p| && k <= |s|
  {
    exists m :: k <= m <= |s| && Accepts(p, i, s, m)
  }

  lemma {:induction false} StarAcceptsFrom(p: string, i: nat, s: string, j: nat)
    requires i < |p| && p[i] == '*' && j <= |s|
    ensures Accepts(p, i, s, j) <==> AcceptsFrom(p, i + 1, s, j)
    decreases |s| - j
  {
    if j < |s| { StarAcceptsFrom(p, i, s, j + 1); }
  }

  /** From pattern index a, exactly n single-rune tokens lead to index b. */
  ghost predicate Fixed(p: string, a: nat, n: nat, b: nat)
    requires a <= |p|
    decreases n
  {
    if n == 0 then a == b
    else a < |p| && p[a] != '*' && Fixed(p, NextAt(p, a), n - 1, b)
  }

  lemma {:induction false} FixedSnoc(p: string, a: nat, n: nat, b: nat)
    requires a <= |p| && Fixed(p, a, n, b) && b < |p| && p[b] != '*'
    ensures Fixed(p, a, n + 1, NextAt(p, b))
    decreases n
  {
    if n > 0 { FixedSnoc(p, NextAt(p, a), n - 1, b); }
  }

  /** Tokens of fixed width consume exactly their number of runes, wherever they start. */
  lemma {:induction false} FixedConsumes(p: string, a: nat, n: nat, b: nat, s: string, k: nat)
    requires a <= |p| && b <= |p| && k <= |s| && Fixed(p, a, n, b) && Accepts(p, a, s, k)
    ensures k + n <= |s| && Accepts(p, b, s, k + n)
    decreases n
  {
    if n > 0 { FixedConsumes(p, NextAt(p, a), n - 1, b, s, k + 1); }
  }

  /** What the latest star can still offer, at a start later than mark. */
  ghost predicate RetryAccepts(p: string, star: int, s: string, mark: nat)
    requires star < |p|
  {
    0 <= star && mark < |s| && AcceptsFrom(p, star + 1, s, mark + 1)
  }

  lemma {:induction false} StarSplit(p: string, i: nat, s: string, k: nat)
    requires i <= |p| && k <= |s|
    ensures AcceptsFrom(p, i, s, k) <==> Accepts(p, i, s, k) || (k < |s| && AcceptsFrom(p, i, s, k + 1))
  {
    if AcceptsFrom(p, i, s, k) {
      var m :| k <= m <= |s| && Accepts(p, i, s, m);
    }
  }

  /** Whether the search still to do, from (pi, si) or by retrying the latest star, succeeds. */
  ghost predicate SearchAccepts(p: string, star: int, s: string, mark: nat, pi: nat, si: nat)
    requires star < |p| && pi <= |p| && si <= |s|
  {
    Accepts(p, pi, s, si) || RetryAccepts(p, star, s, mark)
  }

  /** The matched part of the search: star is a star, and the tokens after it have consumed
      s[mark..si]. */
  ghost predicate Anchored(p: string, star: int, s: string, mark: nat, pi: nat, si: nat) {
    mark <= si && (star >= 0 ==> star < pi <= |p| && p[star] == '*' && Fixed(p, star + 1, si - mark, pi))
  }

  /** A later star takes over the search: every retry of the earlier one becomes redundant. */
  lemma {:induction false} StarStep(p: string, star: int, s: string, mark: nat, pi: nat, si: nat)
    requires star < |p| && pi < |p| && p[pi] == '*' && si < |s| && Anchored(p, star, s, mark, pi, si)
    ensures SearchAccepts(p, star, s, mark, pi, si) == SearchAccepts(p, pi, s, si, pi + 1, si)
  {
    StarAcceptsFrom(p, pi, s, si);
    StarSplit(p, pi + 1, s, si);
    if RetryAccepts(p, star, s, mark) {
      var m :| mark + 1 <= m <= |s| && Accepts(p, star + 1, s, m);
      FixedConsumes(p, star + 1, si - mark, pi, s, m);
      StarAcceptsFrom(p, pi, s, m + (si - mark));
      var m' :| m + (si - mark) <= m' <= |s| && Accepts(p, pi + 1, s, m');
    }
  }

  lemma {:induction false} BacktrackStep(p: string, star: int, s: string, mark: nat, pi: nat, si: nat)
    requires 0 <= star < |p| && pi <= |p| && mark <= si < |s| && !Accepts(p, pi, s, si)
    ensures SearchAccepts(p, star, s, mark, pi, si) == SearchAccepts(p, star, s, mark + 1, star + 1, mark + 1)
  {
    StarSplit(p, star + 1, s, mark + 1);
  }

  lemma {:induction false} NoRetryAtEnd(p: string, star: int, s: string, mark: nat, pi: nat)
    requires star < |p| && pi <= |p| && Anchored(p, star, s, mark, pi, |s|)
    ensures !RetryAccepts(p, star, s, mark)
  {
    if RetryAccepts(p, star, s, mark) {
      var m :| mark + 1 <= m <= |s| && Accepts(p, star + 1, s, m);
      FixedConsumes(p, star + 1, |s| - mark, pi, s, m);
    }
  }

  /** The iterations so far are paid for by the progress of mark and pi. */
  ghost predicate Paid(steps: nat, mark: nat, pi: nat, width: nat) {
    steps <= mark * width + pi
  }

  lemma {:induction false} PaidStep(steps: nat, mark: nat, pi: nat, width: nat, mark': nat, pi': nat)
    requires Paid(steps, mark, pi, width) && pi < width
    requires mark < mark' || (mark == mark' && pi < pi')
    requires mark < mark' ==> pi' > 0 || mark' > mark + 1
    ensures Paid(steps + 1, mark', pi', width)
  {
    if mark < mark' { assert (mark + 1) * width <= mark' * width; }
  }

  lemma {:induction false} AcceptsAtEnd(p: string, i: nat, s: string)
    requires i < |p|
    ensures Accepts(p, i, s, |s|) <==> p[i] == '*' && Accepts(p, i + 1, s, |s|)
  {
    assert TokenAt(p, i).Star? <==> p[i] == '*';
  }

  /** wildcardMatch: true exactly for the strings of the pattern's language, within
      |s| * (|p| + 1) + |p| iterations of the main loop. */
  method WildcardMatch(p: string, s: string) returns (ok: bool, ghost steps: nat)
    ensures ok <==> Matches(p, s)
    ensures steps <= (|s| + 1) * (|p| + 1)
  {
    var pi, si := 0, 0;
    var star, mark := -1, 0;
    steps := 0;
    AcceptsIsMatch(p, s);
    while si < |s|
      invariant 0 <= pi <= |p| && 0 <= mark <= si <= |s| && -1 <= star < |p|
      invariant Anchored(p, star, s, mark, pi, si)
      invariant Accepts(p, 0, s, 0) == SearchAccepts(p, star, s, mark, pi, si)
      invariant Paid(steps, mark, pi, |p| + 1)
      decreases |s| - mark, |p| - pi
    {
      ghost var mark0, pi0 := mark, pi;
      steps := steps + 1;
      if pi < |p| && p[pi] == '*' {
        StarStep(p, star, s, mark, pi, si);
        star, mark := pi, si;
        pi := pi + 1;
        PaidStep(steps - 1, mark0, pi0, |p| + 1, mark, pi);
        continue;
      }
      if pi < |p| {
        var next, matched := MatchOne(p, pi, s[si]);
        if matched {
          if star >= 0 { FixedSnoc(p, star + 1, si - mark, pi); }
          pi := next;
          si := si + 1;
          PaidStep(steps - 1, mark0, pi0, |p| + 1, mark, pi);
          continue;
        }
      }
      if star >= 0 {
        BacktrackStep(p, star, s, mark, pi, si);
        mark := mark + 1;
        si := mark;
        pi := star + 1;
        PaidStep(steps - 1, mark0, pi0, |p| + 1, mark, pi);
        continue;
      }
      PaidBound(steps - 1, mark0, pi0, |s|, |p| + 1);
      return false, steps;
    }
    PaidBound(steps, mark, pi, |s|, |p| + 1);
    NoRetryAtEnd(p, star, s, mark, pi);
    while pi < |p| && p[pi] == '*'
      invariant 0 <= pi <= |p|
      invariant Accepts(p, 0, s, 0) == Accepts(p, pi, s, |s|)
    {
      AcceptsAtEnd(p, pi, s);
      pi := pi + 1;
    }
    if pi < |p| { AcceptsAtEnd(p, pi, s); }
    return pi == |p|, steps;
  }

  lemma {:induction false} PaidBound(steps: nat, mark: nat, pi: nat, n: nat, width: nat)
    requires Paid(steps, mark, pi, width) && mark <= n && pi < width
    ensures steps < (n + 1) * width
  {
    assert (mark + 1) * width <= (n + 1) * width;
  }
}
