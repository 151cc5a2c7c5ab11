/** What a glob matches, said on the pieces it is written with and without the matcher's own parsing
    (internal/permissions/match.go). */
module PatternMeaning {
  import opened Options
  import opened Wildcard
  import opened DoubleStar
  import DoubleStarMeaning
  import Rule = SessionRule

  // ----- Patterns in pieces -----

  /** A member of a class: one rune or a range, its first rune escaped or not. */
  datatype Member = Member(quoted: bool, lo: char, hi: Option<char>)

  datatype Piece = Text(text: string) | OneRune | AnyText | OneOf(mark: string, members: seq<Member>)

  predicate MemberOk(m: Member) {
    (m.quoted || m.lo !in ['\\', ']', '!', '^', '-']) && m.hi != Some(']')
  }

  predicate MembersOk(ms: seq<Member>) {
    forall k :: 0 <= k < |ms| ==> MemberOk(ms[k])
  }

  predicate PieceOk(x: Piece) {
    x.OneOf? ==> x.mark in ["", "!", "^"] && x.members != [] && MembersOk(x.members)
  }

  predicate PiecesOk(xs: seq<Piece>) {
    forall k :: 0 <= k < |xs| ==> PieceOk(xs[k])
  }

  function MemberText(m: Member): (text: string)
    ensures text != ""
  {
    (if m.quoted then "\\" else "") + [m.lo] + (if m.hi.Some? then ['-', m.hi.value] else "")
  }

  function MembersText(ms: seq<Member>): string {
    if ms == [] then "" else MemberText(ms[0]) + MembersText(ms[1..])
  }

  function PieceText(x: Piece): string {
    match x
    case Text(text) => Rule.Escaped(text)
    case OneRune => "?"
    case AnyText => "*"
    case OneOf(mark, members) => "[" + mark + MembersText(members) + "]"
  }

  function Written(xs: seq<Piece>): string {
    if xs == [] then "" else PieceText(xs[0]) + Written(xs[1..])
  }

  // ----- What they mean -----

  predicate Includes(m: Member, c: char) {
    if m.hi.Some? then m.lo <= c <= m.hi.value else c == m.lo
  }

  predicate Admits(mark: string, ms: seq<Member>, c: char) {
    (exists k :: 0 <= k < |ms| && Includes(ms[k], c)) == (mark == "")
  }

  ghost predicate Means(xs: seq<Piece>, s: string)
    decreases |xs|
  {
    if xs == [] then s == ""
    else
      match xs[0]
      case Text(text) => text <= s && Means(xs[1..], s[|text|..])
      case OneRune => s != "" && Means(xs[1..], s[1..])
      case AnyText => exists k :: 0 <= k <= |s| && Means(xs[1..], s[k..])
      case OneOf(mark, members) => s != "" && Admits(mark, members, s[0]) && Means(xs[1..], s[1..])
  }

  // ----- Classes -----

  function RangeOf(m: Member): Range {
    Range(m.lo, if m.hi.Some? then m.hi.value else m.lo)
  }

  function RangesOf(ms: seq<Member>): (ranges: seq<Range>)
    ensures |ranges| == |ms| && forall k :: 0 <= k < |ms| ==> ranges[k] == RangeOf(ms[k])
  {
    seq(|ms|, k requires 0 <= k < |ms| => RangeOf(ms[k]))
  }

  lemma {:induction false} RangesAdmit(mark: string, ms: seq<Member>, c: char)
    ensures (InRanges(RangesOf(ms), c) != (mark != "")) <==> Admits(mark, ms, c)
  {
    var ranges := RangesOf(ms);
    assert forall k :: 0 <= k < |ms| ==> (ranges[k].lo <= c <= ranges[k].hi <==> Includes(ms[k], c));
    if InRanges(ranges, c) {
      var k :| 0 <= k < |ranges| && ranges[k].lo <= c <= ranges[k].hi;
      assert Includes(ms[k], c);
    }
    if k :| 0 <= k < |ms| && Includes(ms[k], c) {
      assert ranges[k].lo <= c <= ranges[k].hi;
    }
  }

  lemma {:induction false} MemberParsed(p: string, pre: string, m: Member, post: string)
    requires p == pre + MemberText(m) + post && MemberOk(m) && post != "" && post[0] != '-'
    ensures p[|pre|] != ']' && MemberRange(p, |pre|) == RangeOf(m)
    ensures MemberEnd(p, |pre|) == |pre + MemberText(m)|
  {
    var k, text := |pre|, MemberText(m);
    assert p[k..k + |text|] == text;
    assert forall i :: 0 <= i < |text| ==> p[k + i] == text[i];
    assert p[k + |text|] == post[0];
  }

  lemma {:induction false} MembersBegin(ms: seq<Member>)
    requires ms != [] && MembersOk(ms)
    ensures MembersText(ms) != "" && MembersText(ms)[0] !in ['-', '!', '^', ']']
  {
    assert MemberOk(ms[0]);
  }

  lemma {:induction false} MembersParsed(p: string, pre: string, ms: seq<Member>, post: string, first: bool)
    requires p == pre + MembersText(ms) + "]" + post && MembersOk(ms) && (first ==> ms != [])
    ensures ClassMembers(p, |pre|, first) == Some(ClassBody(RangesOf(ms), |pre + MembersText(ms)| + 1))
    decreases |ms|
  {
    if ms == [] {
      assert p[|pre|] == ']';
    } else {
      var text, rest := MemberText(ms[0]), MembersText(ms[1..]);
      var post' := rest + "]" + post;
      assert p == pre + text + post';
      if ms[1..] != [] { MembersBegin(ms[1..]); }
      MemberParsed(p, pre, ms[0], post');
      assert p == (pre + text) + rest + "]" + post;
      MembersParsed(p, pre + text, ms[1..], post, false);
      assert RangesOf(ms) == [RangeOf(ms[0])] + RangesOf(ms[1..]);
    }
  }

  lemma {:induction false} MarkRead(p: string, pre: string, mark: string, rest: string)
    requires p == pre + "[" + mark + rest && mark in ["", "!", "^"] && rest != "" && rest[0] !in ['!', '^']
    ensures p[|pre|] == '[' && (IsNegated(p, |pre|) <==> mark != "")
  {
    assert p[|pre| + 1 + |mark|] == rest[0];
    assert mark != "" ==> p[|pre| + 1] == mark[0];
  }

  lemma {:induction false} ClassRead(p: string, i: nat, negated: bool, body: ClassBody)
    requires i < |p| && p[i] == '[' && (IsNegated(p, i) <==> negated)
    requires (if negated then i + 2 else i + 1) <= |p|
    requires ClassMembers(p, if negated then i + 2 else i + 1, true) == Some(body)
    ensures TokenAt(p, i) == Class(negated, body.ranges) && NextAt(p, i) == body.next
  {
  }

  lemma {:induction false} ClassParsed(p: string, pre: string, x: Piece, post: string)
    requires p == pre + PieceText(x) + post && x.OneOf? && PieceOk(x)
    ensures TokenAt(p, |pre|) == Class(x.mark != "", RangesOf(x.members))
    ensures NextAt(p, |pre|) == |pre + PieceText(x)|
  {
    ClassIn(p, pre, x.mark, x.members, MembersText(x.members), post);
  }

  lemma {:induction false} ClassIn(p: string, pre: string, mark: string, ms: seq<Member>, text: string, post: string)
    requires p == pre + ("[" + mark + text + "]") + post && text == MembersText(ms)
    requires mark in ["", "!", "^"] && ms != [] && MembersOk(ms)
    ensures TokenAt(p, |pre|) == Class(mark != "", RangesOf(ms)) && NextAt(p, |pre|) == |pre| + |mark| + |text| + 2
  {
    MembersBegin(ms);
    ClassAround(p, pre, mark, text, post);
    MarkRead(p, pre, mark, text + "]" + post);
    var start := pre + "[" + mark;
    MembersParsed(p, start, ms, post, true);
    ClassRead(p, |pre|, mark != "", ClassBody(RangesOf(ms), |start + text| + 1));
  }

  lemma {:induction false} ClassAround(p: string, pre: string, mark: string, members: string, post: string)
    requires p == pre + ("[" + mark + members + "]") + post
    ensures p == pre + "[" + mark + (members + "]" + post)
    ensures p == (pre + "[" + mark) + members + "]" + post
  {
  }

  // ----- One piece -----

  lemma {:induction false} TextStep(p: string, pre: string, text: string, post: string, s: string, j: nat)
    requires p == pre + Rule.Escaped(text) + post && j <= |s|
    ensures Accepts(p, |pre|, s, j) <==>
            text <= s[j..] && Accepts(p, |pre + Rule.Escaped(text)|, s, j + |text|)
    decreases |text|
  {
    if text == "" {
      assert pre + Rule.Escaped(text) == pre;
    } else {
      var c, rest := text[0], Rule.Escaped(text[1..]);
      var head := if Rule.IsMeta(c) then ['\\', c] else [c];
      assert p == (pre + head) + rest + post;
      assert pre + Rule.Escaped(text) == (pre + head) + rest;
      assert p[|pre|] == head[0] && (Rule.IsMeta(c) ==> p[|pre| + 1] == c);
      assert TokenAt(p, |pre|) == Literal(c) && NextAt(p, |pre|) == |pre + head|;
      if j < |s| {
        TextStep(p, pre + head, text[1..], post, s, j + 1);
        FirstThenRest(text, s, j);
      }
    }
  }

  lemma {:induction false} FirstThenRest(text: string, s: string, j: nat)
    requires text != "" && j < |s|
    ensures text <= s[j..] <==> text[0] == s[j] && text[1..] <= s[j + 1..]
  {
    assert s[j..][0] == s[j] && s[j..][1..] == s[j + 1..];
    assert text == [text[0]] + text[1..];
    if text <= s[j..] { assert s[j..][..|text|][1..] == text[1..]; }
    if text[0] == s[j] && text[1..] <= s[j + 1..] {
      assert s[j..][..|text|] == [s[j]] + s[j + 1..][..|text| - 1];
    }
  }

  lemma {:induction false} OneStep(p: string, pre: string, x: Piece, post: string, s: string, j: nat)
    requires p == pre + PieceText(x) + post && j <= |s| && (x.OneRune? || x.OneOf?) && PieceOk(x)
    ensures Accepts(p, |pre|, s, j) <==>
            j < |s| && (x.OneOf? ==> Admits(x.mark, x.members, s[j])) && Accepts(p, |pre + PieceText(x)|, s, j + 1)
  {
    if x.OneRune? {
      assert p[|pre|] == '?';
    } else {
      ClassParsed(p, pre, x, post);
      if j < |s| { RangesAdmit(x.mark, x.members, s[j]); }
    }
  }

  // ----- Whole patterns -----

  lemma {:induction false} WrittenAccepts(pre: string, xs: seq<Piece>, s: string, j: nat)
    requires PiecesOk(xs) && j <= |s|
    ensures Accepts(pre + Written(xs), |pre|, s, j) <==> Means(xs, s[j..])
    decreases |xs|, 2
  {
    if xs == [] {
      assert pre + Written(xs) == pre;
    } else {
      assert pre + Written(xs) == pre + PieceText(xs[0]) + Written(xs[1..]);
      match xs[0] {
        case Text(_) => TextMeans(pre, xs, s, j);
        case AnyText => AnyMeans(pre, xs, s, j);
        case _ => OneMeans(pre, xs, s, j);
      }
    }
  }

  lemma {:induction false} RestAccepts(p: string, pre: string, xs: seq<Piece>, s: string, j: nat)
    requires PiecesOk(xs) && j <= |s| && xs != [] && p == pre + PieceText(xs[0]) + Written(xs[1..])
    ensures Accepts(p, |pre + PieceText(xs[0])|, s, j) <==> Means(xs[1..], s[j..])
    decreases |xs|, 0
  {
    assert p == (pre + PieceText(xs[0])) + Written(xs[1..]);
    WrittenAccepts(pre + PieceText(xs[0]), xs[1..], s, j);
  }

  lemma {:induction false} TextMeans(pre: string, xs: seq<Piece>, s: string, j: nat)
    requires PiecesOk(xs) && j <= |s| && xs != [] && xs[0].Text?
    ensures Accepts(pre + PieceText(xs[0]) + Written(xs[1..]), |pre|, s, j) <==> Means(xs, s[j..])
    decreases |xs|, 1
  {
    var p, text := pre + PieceText(xs[0]) + Written(xs[1..]), xs[0].text;
    TextStep(p, pre, text, Written(xs[1..]), s, j);
    if text <= s[j..] {
      RestAccepts(p, pre, xs, s, j + |text|);
      assert s[j..][|text|..] == s[j + |text|..];
    }
  }

  lemma {:induction false} OneMeans(pre: string, xs: seq<Piece>, s: string, j: nat)
    requires PiecesOk(xs) && j <= |s| && xs != [] && (xs[0].OneRune? || xs[0].OneOf?)
    ensures Accepts(pre + PieceText(xs[0]) + Written(xs[1..]), |pre|, s, j) <==> Means(xs, s[j..])
    decreases |xs|, 1
  {
    var p := pre + PieceText(xs[0]) + Written(xs[1..]);
    assert PieceOk(xs[0]);
    OneStep(p, pre, xs[0], Written(xs[1..]), s, j);
    if j < |s| {
      RestAccepts(p, pre, xs, s, j + 1);
      assert s[j..][1..] == s[j + 1..] && s[j..][0] == s[j];
    }
  }

  lemma {:induction false} AnyMeans(pre: string, xs: seq<Piece>, s: string, j: nat)
    requires PiecesOk(xs) && j <= |s| && xs != [] && xs[0].AnyText?
    ensures Accepts(pre + PieceText(xs[0]) + Written(xs[1..]), |pre|, s, j) <==> Means(xs, s[j..])
    decreases |xs|, 1
  {
    var p := pre + PieceText(xs[0]) + Written(xs[1..]);
    forall m | j <= m <= |s| ensures Accepts(p, |pre| + 1, s, m) <==> Means(xs[1..], s[m..]) {
      RestAccepts(p, pre, xs, s, m);
    }
    AnyStep(p, |pre|, xs, s, j);
  }

  lemma {:induction false} AnyStep(p: string, i: nat, xs: seq<Piece>, s: string, j: nat)
    requires i < |p| && p[i] == '*' && j <= |s| && xs != [] && xs[0].AnyText?
    requires forall m :: j <= m <= |s| ==> (Accepts(p, i + 1, s, m) <==> Means(xs[1..], s[m..]))
    ensures Accepts(p, i, s, j) <==> Means(xs, s[j..])
  {
    Wildcard.StarAcceptsFrom(p, i, s, j);
    SomeRestMeans(xs, s, j);
    if AcceptsFrom(p, i + 1, s, j) {
      var m :| j <= m <= |s| && Accepts(p, i + 1, s, m);
      assert Means(xs[1..], s[m..]);
    }
    if m :| j <= m <= |s| && Means(xs[1..], s[m..]) {
      assert Accepts(p, i + 1, s, m);
    }
  }

  lemma {:induction false} SomeRestMeans(xs: seq<Piece>, s: string, j: nat)
    requires j <= |s| && xs != [] && xs[0].AnyText?
    ensures Means(xs, s[j..]) <==> exists m :: j <= m <= |s| && Means(xs[1..], s[m..])
  {
    var rest := s[j..];
    if k :| 0 <= k <= |rest| && Means(xs[1..], rest[k..]) {
      assert rest[k..] == s[j + k..];
    }
    if m :| j <= m <= |s| && Means(xs[1..], s[m..]) {
      assert rest[m - j..] == s[m..];
    }
  }

  /** A pattern written with pieces matches exactly what the pieces mean, one after the other. */
  lemma {:induction false} WrittenMeans(xs: seq<Piece>, s: string)
    requires PiecesOk(xs)
    ensures Matches(Written(xs), s) <==> Means(xs, s)
  {
    WrittenAccepts("", xs, s, 0);
    assert "" + Written(xs) == Written(xs) && s[0..] == s;
    AcceptsIsMatch(Written(xs), s);
  }

  // ----- Between two texts -----

  lemma {:induction false} TextAtEnd(b: string, s: string)
    ensures Means([Text(b)], s) <==> s == b
  {
    var xs := [Text(b)];
    assert xs[1..] == [];
    if b <= s && s[|b|..] == "" { assert s == b + s[|b|..]; }
  }

  lemma {:induction false} WrittenCons(x: Piece, xs: seq<Piece>)
    ensures Written([x] + xs) == PieceText(x) + Written(xs)
  {
    assert ([x] + xs)[1..] == xs;
  }

  lemma {:induction false} WrittenBetween(a: string, x: Piece, b: string)
    ensures Written([Text(a), x, Text(b)]) == Rule.Escaped(a) + PieceText(x) + Rule.Escaped(b)
  {
    WrittenCons(Text(b), []);
    WrittenCons(x, [Text(b)]);
    WrittenCons(Text(a), [x] + [Text(b)]);
    assert [Text(b)] == [Text(b)] + [] && [Text(a), x, Text(b)] == [Text(a)] + ([x] + [Text(b)]);
    assert Rule.Escaped(b) + "" == Rule.Escaped(b);
  }

  /** A piece between two texts, as it is written and as it is read. */
  lemma {:induction false} Between(a: string, x: Piece, b: string)
    ensures Written([Text(a), x, Text(b)]) == Rule.Escaped(a) + PieceText(x) + Rule.Escaped(b)
    ensures forall s :: Means([Text(a), x, Text(b)], s) <==> a <= s && Means([x, Text(b)], s[|a|..])
  {
    WrittenBetween(a, x, b);
    assert [Text(a), x, Text(b)][1..] == [x, Text(b)];
  }

  /** "?" stands for exactly one rune, whichever it is. */
  lemma {:induction false} OneRuneBetween(a: string, b: string, s: string)
    ensures Matches(Rule.Escaped(a) + "?" + Rule.Escaped(b), s) <==>
            |s| == |a| + 1 + |b| && a <= s && s[|a| + 1..] == b
  {
    Between(a, OneRune, b);
    WrittenMeans([Text(a), OneRune, Text(b)], s);
    if a <= s && s[|a|..] != "" {
      assert [OneRune, Text(b)][1..] == [Text(b)] && s[|a|..][1..] == s[|a| + 1..];
      TextAtEnd(b, s[|a| + 1..]);
    }
  }

  lemma {:induction false} AnyThenText(b: string, rest: string)
    ensures Means([AnyText, Text(b)], rest) <==> |b| <= |rest| && rest[|rest| - |b|..] == b
  {
    assert [AnyText, Text(b)][1..] == [Text(b)];
    forall k | 0 <= k <= |rest| ensures Means([Text(b)], rest[k..]) <==> rest[k..] == b { TextAtEnd(b, rest[k..]); }
  }

  /** "*" stands for any text, the empty one and separators included. */
  lemma {:induction false} AnyTextBetween(a: string, b: string, s: string)
    ensures Matches(Rule.Escaped(a) + "*" + Rule.Escaped(b), s) <==>
            |a| + |b| <= |s| && a <= s && s[|s| - |b|..] == b
  {
    Between(a, AnyText, b);
    WrittenMeans([Text(a), AnyText, Text(b)], s);
    if a <= s {
      var rest := s[|a|..];
      AnyThenText(b, rest);
      if |b| <= |rest| { assert rest[|rest| - |b|..] == s[|s| - |b|..]; }
    }
  }

  /** A class stands for one rune of its range, a negated class for one outside. */
  lemma {:induction false} ClassBetween(a: string, mark: string, x: char, y: char, b: string, s: string)
    requires mark in ["", "!", "^"] && x !in ['\\', ']', '!', '^', '-'] && y != ']'
    ensures Matches(Rule.Escaped(a) + ("[" + mark + [x, '-', y] + "]") + Rule.Escaped(b), s) <==>
            |s| == |a| + 1 + |b| && a <= s && s[|a| + 1..] == b && (x <= s[|a|] <= y <==> mark == "")
  {
    var m := Member(false, x, Some(y));
    var piece := OneOf(mark, [m]);
    assert MembersText([m]) == [x, '-', y] by {
      assert [m][1..] == [] && "" + [x] + ['-', y] + "" == [x, '-', y];
    }
    assert PieceText(piece) == "[" + mark + [x, '-', y] + "]";
    Between(a, piece, b);
    assert PiecesOk([Text(a), piece, Text(b)]);
    WrittenMeans([Text(a), piece, Text(b)], s);
    if a <= s && s[|a|..] != "" {
      assert [piece, Text(b)][1..] == [Text(b)] && s[|a|..][1..] == s[|a| + 1..];
      assert Admits(mark, [m], s[|a|]) <==> (x <= s[|a|] <= y <==> mark == "") by {
        assert Includes([m][0], s[|a|]) <==> x <= s[|a|] <= y;
      }
      TextAtEnd(b, s[|a| + 1..]);
    }
  }

  // ----- Marks without a partner -----

  lemma {:induction false} NoBracketNoClass(p: string, k: nat, first: bool)
    requires k <= |p| && ']' !in p[k..]
    ensures ClassMembers(p, k, first).None?
    decreases |p| - k
  {
    if k < |p| {
      var n := MemberEnd(p, k);
      assert p[k..][0] == p[k];
      forall i | 0 <= i < |p[n..]| ensures p[n..][i] != ']' { assert p[n..][i] == p[k..][n - k + i]; }
      NoBracketNoClass(p, n, false);
    }
  }

  lemma {:induction false} EscapedInside(s: string, c: char)
    requires c !in s && c != '\\'
    ensures c !in Rule.Escaped(s)
  {
    if s != "" { EscapedInside(s[1..], c); }
  }

  /** The rune at the end of the first text stands for itself. */
  lemma {:induction false} RuneBetween(a: string, c: char, b: string, s: string)
    requires var p := Rule.Escaped(a) + [c] + Rule.Escaped(b);
      TokenAt(p, |Rule.Escaped(a)|) == Literal(c) && NextAt(p, |Rule.Escaped(a)|) == |Rule.Escaped(a)| + 1
    ensures Matches(Rule.Escaped(a) + [c] + Rule.Escaped(b), s) <==> s == a + [c] + b
  {
    var pre := Rule.Escaped(a);
    var p := pre + [c] + Rule.Escaped(b);
    AcceptsIsMatch(p, s);
    assert s[0..] == s && "" + pre == pre && p == pre + ([c] + Rule.Escaped(b));
    TextStep(p, "", a, [c] + Rule.Escaped(b), s, 0);
    if a <= s && |a| < |s| {
      Rule.EscapedAccepts(pre + [c], b, s, |a| + 1);
      assert s == a + [s[|a|]] + s[|a| + 1..];
    }
  }

  /** A bracket that nothing closes stands for itself. */
  lemma {:induction false} UnclosedBracket(a: string, b: string, s: string)
    requires ']' !in b
    ensures Matches(Rule.Escaped(a) + "[" + Rule.Escaped(b), s) <==> s == a + "[" + b
  {
    var pre, post := Rule.Escaped(a), Rule.Escaped(b);
    var p := pre + "[" + post;
    EscapedInside(b, ']');
    var k := if IsNegated(p, |pre|) then |pre| + 2 else |pre| + 1;
    forall i | 0 <= i < |p[k..]| ensures p[k..][i] != ']' { assert p[k..][i] == post[k - |pre| - 1 + i]; }
    NoBracketNoClass(p, k, true);
    RuneBetween(a, '[', b, s);
  }

  /** So does a backslash at the end. */
  lemma {:induction false} TrailingBackslash(a: string, s: string)
    ensures Matches(Rule.Escaped(a) + "\\", s) <==> s == a + "\\"
  {
    assert Rule.Escaped(a) + "\\" + Rule.Escaped("") == Rule.Escaped(a) + "\\" && a + "\\" + "" == a + "\\";
    RuneBetween(a, '\\', "", s);
  }

  // ----- Globs -----

  /** Without two stars in a row a glob is its pattern. */
  lemma {:induction false} PlainGlob(p: string, t: string)
    requires !ContainsDoubleStar(p)
    ensures GlobAccepts(p, t) <==> Matches(p, t)
  {
    var segs := Split(p);
    JoinSplit(p);
    NoSegmentIsStar(segs);
    NoStarsNoVariants(segs);
    assert forall keep :: IsVariant(segs, keep) ==> Join(Keep(segs, keep)) == p;
  }

  /** A glob written with pieces, without two stars in a row, accepts exactly what the pieces mean. */
  lemma {:induction false} GlobMeans(xs: seq<Piece>, t: string)
    requires PiecesOk(xs) && !ContainsDoubleStar(Written(xs))
    ensures GlobAccepts(Written(xs), t) <==> Means(xs, t)
  {
    PlainGlob(Written(xs), t);
    WrittenMeans(xs, t);
  }

  /** The segments of a text that begins with c, from those behind it. */
  function Led(c: char, segs: seq<string>): seq<string>
    requires segs != []
  {
    if c == '/' then [""] + segs else [[c] + segs[0]] + segs[1..]
  }

  lemma {:induction false} SplitFirst(c: char, s: string)
    ensures Split([c] + s) == Led(c, Split(s))
  {
    assert ([c] + s)[1..] == s;
  }

  lemma {:induction false} LedConcat(c: char, a: seq<string>, b: seq<string>)
    requires a != []
    ensures Led(c, a + b) == Led(c, a) + b
  {
    assert (a + b)[1..] == a[1..] + b;
  }

  lemma {:induction false} FirstOut(x: string, y: string)
    requires x != ""
    ensures [x[0]] + x[1..] == x && [x[0]] + (x[1..] + "/" + y) == x + "/" + y
  {
  }

  lemma {:induction false} SplitConcat(x: string, y: string)
    ensures Split(x + "/" + y) == Split(x) + Split(y)
  {
    if x == "" {
      assert x + "/" + y == ['/'] + y;
      SplitFirst('/', y);
    } else {
      var rest := x[1..];
      SplitConcat(rest, y);
      FirstOut(x, y);
      SplitFirst(x[0], rest);
      SplitFirst(x[0], rest + "/" + y);
      LedConcat(x[0], Split(rest), Split(y));
    }
  }

  predicate NoStars(segs: seq<string>) {
    forall i :: 0 <= i < |segs| ==> segs[i] != "**"
  }

  lemma {:induction false} NothingBefore(segs: seq<string>, n: nat)
    requires n <= |segs| && NoStars(segs[..n])
    ensures StarPositions(segs, n) == []
  {
    if n > 0 {
      assert segs[..n][n - 1] == segs[n - 1];
      assert forall i :: 0 <= i < n - 1 ==> segs[..n - 1][i] == segs[..n][i];
      NothingBefore(segs, n - 1);
    }
  }

  lemma {:induction false} KeepsAll(segs: seq<string>, keep: seq<bool>)
    requires |keep| == |segs| && forall i :: 0 <= i < |keep| ==> keep[i]
    ensures Keep(segs, keep) == segs
  {
    if segs != [] { KeepsAll(segs[1..], keep[1..]); }
  }

  lemma {:induction false} OneStarStays(xs: seq<string>, ys: seq<string>)
    requires NoStars(xs) && NoStars(ys)
    ensures Dedup(xs + ["**"] + ys) == xs + ["**"] + ys
  {
    var all := xs + ["**"] + ys;
    if xs == [] {
      assert all[1..] == ys;
      NoStarsStay(ys, true);
    } else {
      assert all[1..] == xs[1..] + ["**"] + ys && all[0] == xs[0];
      OneStarStays(xs[1..], ys);
    }
  }

  lemma {:induction false} NoStarsStay(ys: seq<string>, prev: bool)
    requires NoStars(ys)
    ensures Dedup(ys, prev) == ys
  {
    if ys != [] { NoStarsStay(ys[1..], false); }
  }

  lemma {:induction false} KeepAround(xs: seq<string>, ys: seq<string>, a: seq<bool>, k: bool, b: seq<bool>)
    requires |a| == |xs| && |b| == |ys| && (forall i :: 0 <= i < |a| ==> a[i]) && forall i :: 0 <= i < |b| ==> b[i]
    ensures Keep(xs + ["**"] + ys, a + [k] + b) == if k then xs + ["**"] + ys else xs + ys
  {
    KeepsAll(xs, a);
    KeepsAll(ys, b);
    KeepConcat(xs, a, ["**"], [k]);
    KeepConcat(xs + ["**"], a + [k], ys, b);
    assert Keep(["**"][1..], [k][1..]) == [];
  }

  /** The choices of a pattern with one "**" segment are that of keeping it. */
  lemma {:induction false} OneChoice(segs: seq<string>, n: nat, keep: seq<bool>)
    requires n < |segs| && segs[n] == "**" && NoStars(segs[..n]) && NoStars(segs[n + 1..]) && |keep| == |segs|
    ensures IsVariant(segs, keep) <==> forall i :: 0 <= i < |segs| && i != n ==> keep[i]
  {
    NothingBefore(segs, n);
    forall i | 0 <= i < |segs| && i != n ensures segs[i] != "**" {
      assert segs[i] == if i < n then segs[..n][i] else segs[n + 1..][i - n - 1];
    }
  }

  lemma {:induction false} FormOf(xs: seq<string>, ys: seq<string>, keep: seq<bool>)
    requires |keep| == |xs| + 1 + |ys| && forall i :: 0 <= i < |keep| && i != |xs| ==> keep[i]
    ensures Keep(xs + ["**"] + ys, keep) == if keep[|xs|] then xs + ["**"] + ys else xs + ys
  {
    var a, b := keep[..|xs|], keep[|xs| + 1..];
    assert keep == a + [keep[|xs|]] + b;
    KeepAround(xs, ys, a, keep[|xs|], b);
  }

  lemma {:induction false} HasForm(xs: seq<string>, ys: seq<string>, k: bool)
    requires NoStars(xs) && NoStars(ys)
    ensures IsForm(xs + ["**"] + ys, if k then Join(xs + ["**"] + ys) else Join(xs + ys))
  {
    var segs, n := xs + ["**"] + ys, |xs|;
    assert segs[..n] == xs && segs[n] == "**" && segs[n + 1..] == ys;
    var keep := seq(|segs|, i => i != n || k);
    OneChoice(segs, n, keep);
    FormOf(xs, ys, keep);
  }

  /** So its forms are the pattern as it is, and the pattern without that segment. */
  lemma {:induction false} TwoForms(xs: seq<string>, ys: seq<string>, v: string)
    requires NoStars(xs) && NoStars(ys)
    ensures IsForm(xs + ["**"] + ys, v) <==> v == Join(xs + ["**"] + ys) || v == Join(xs + ys)
  {
    var segs, n := xs + ["**"] + ys, |xs|;
    assert segs[..n] == xs && segs[n] == "**" && segs[n + 1..] == ys;
    if keep :| IsVariant(segs, keep) && v == Join(Keep(segs, keep)) {
      OneChoice(segs, n, keep);
      FormOf(xs, ys, keep);
    }
    HasForm(xs, ys, true);
    HasForm(xs, ys, false);
  }

  lemma {:induction false} FormsAccept(p: string, t: string)
    ensures GlobAccepts(p, t) <==> exists v :: IsForm(Dedup(Split(p)), v) && Matches(v, t)
  {
    var segs := Dedup(Split(p));
    if keep :| IsVariant(segs, keep) && Matches(Join(Keep(segs, keep)), t) {
      assert IsForm(segs, Join(Keep(segs, keep)));
    }
  }

  lemma {:induction false} EscapedSegments(a: string)
    ensures NoStars(Split(Rule.Escaped(a)))
  {
    Rule.EscapedHasNoDoubleStar(a);
    JoinSplit(Rule.Escaped(a));
    NoSegmentIsStar(Split(Rule.Escaped(a)));
  }

  lemma {:induction false} SplitDoubleStar(x: string, y: string)
    ensures Split(x + "/**/" + y) == Split(x) + ["**"] + Split(y)
    ensures Join(Split(x) + ["**"] + Split(y)) == x + "/**/" + y
    ensures Join(Split(x) + Split(y)) == x + "/" + y
  {
    assert x + "/**/" + y == (x + "/" + "**") + "/" + y;
    SplitConcat(x + "/" + "**", y);
    SplitConcat(x, "**");
    assert Split("**") == ["**"] by { DoubleStarMeaning.SplitPlain("**"); }
    JoinSplit(x + "/**/" + y);
    SplitConcat(x, y);
    JoinSplit(x + "/" + y);
  }

  lemma {:induction false} TwoStarsThenText(b: string, rest: string)
    ensures Means([AnyText, AnyText, Text(b)], rest) <==> |b| <= |rest| && rest[|rest| - |b|..] == b
  {
    assert [AnyText, AnyText, Text(b)][1..] == [AnyText, Text(b)];
    forall k | 0 <= k <= |rest|
      ensures Means([AnyText, Text(b)], rest[k..]) <==> |b| <= |rest| - k && rest[|rest| - |b|..] == b
    {
      AnyThenText(b, rest[k..]);
      if |b| <= |rest| - k { assert rest[k..][|rest| - k - |b|..] == rest[|rest| - |b|..]; }
    }
    assert rest[0..] == rest;
  }

  lemma {:induction false} AroundTwoStars(a: string, b: string, t: string)
    ensures Means([Text(a), AnyText, AnyText, Text(b)], t) <==>
            |a| + |b| <= |t| && a <= t && t[|t| - |b|..] == b
  {
    assert [Text(a), AnyText, AnyText, Text(b)][1..] == [AnyText, AnyText, Text(b)];
    if a <= t {
      var rest := t[|a|..];
      TwoStarsThenText(b, rest);
      if |b| <= |rest| { assert rest[|rest| - |b|..] == t[|t| - |b|..]; }
    }
  }

  lemma {:induction false} SlashesAround(x: string, y: string)
    ensures (x + "/") + "**" + ("/" + y) == x + "/**/" + y
  {
  }

  lemma {:induction false} WholeForm(a: string, b: string, t: string)
    ensures Matches(Rule.Escaped(a) + "/**/" + Rule.Escaped(b), t) <==>
            |a| + |b| + 2 <= |t| && a + "/" <= t && t[|t| - |b| - 1..] == "/" + b
  {
    EscapedSlash(a, b);
    SlashesAround(Rule.Escaped(a), Rule.Escaped(b));
    TwoStarsMatch(a + "/", "/" + b, t);
  }

  lemma {:induction false} TwoStarsMatch(a: string, b: string, t: string)
    ensures Matches(Rule.Escaped(a) + "**" + Rule.Escaped(b), t) <==>
            |a| + |b| <= |t| && a <= t && t[|t| - |b|..] == b
  {
    var xs := [Text(a), AnyText, AnyText, Text(b)];
    WrittenDoubleStar(a, b);
    assert PiecesOk(xs);
    WrittenMeans(xs, t);
    AroundTwoStars(a, b, t);
  }

  lemma {:induction false} WrittenDoubleStar(x: string, y: string)
    ensures Written([Text(x), AnyText, AnyText, Text(y)]) == Rule.Escaped(x) + "**" + Rule.Escaped(y)
  {
    var end := [Text(y)];
    WrittenCons(Text(y), []);
    WrittenCons(AnyText, end);
    WrittenCons(AnyText, [AnyText] + end);
    WrittenCons(Text(x), [AnyText] + ([AnyText] + end));
    assert [Text(x), AnyText, AnyText, Text(y)] == [Text(x)] + ([AnyText] + ([AnyText] + end));
    assert end == end + [];
    assert Rule.Escaped(y) + "" == Rule.Escaped(y) && "*" + ("*" + Rule.Escaped(y)) == "**" + Rule.Escaped(y);
  }

  lemma {:induction false} EscapedSlash(a: string, b: string)
    ensures Rule.Escaped(a + "/") == Rule.Escaped(a) + "/" && Rule.Escaped("/" + b) == "/" + Rule.Escaped(b)
    ensures Rule.Escaped(a + "/" + b) == Rule.Escaped(a) + "/" + Rule.Escaped(b)
  {
    assert "/"[1..] == "" && Rule.Escaped("/") == "/" + Rule.Escaped("");
    Rule.EscapedConcat(a, "/");
    Rule.EscapedConcat("/", b);
    Rule.EscapedConcat(a + "/", b);
  }

  lemma {:induction false} ShortForm(a: string, b: string, t: string)
    ensures Matches(Rule.Escaped(a) + "/" + Rule.Escaped(b), t) <==> t == a + "/" + b
  {
    EscapedSlash(a, b);
    var p := Rule.Escaped(a + "/" + b);
    Rule.EscapedAccepts("", a + "/" + b, t, 0);
    assert "" + p == p && t[0..] == t;
    AcceptsIsMatch(p, t);
  }

  /** A "**" segment stands for any path between two texts, or for nothing at all. */
  lemma {:induction false} DoubleStarBetween(a: string, b: string, t: string)
    ensures GlobAccepts(Rule.Escaped(a) + "/**/" + Rule.Escaped(b), t) <==>
            t == a + "/" + b || (|a| + |b| + 2 <= |t| && a + "/" <= t && t[|t| - |b| - 1..] == "/" + b)
  {
    var x, y := Rule.Escaped(a), Rule.Escaped(b);
    EscapedSegments(a);
    EscapedSegments(b);
    SplitDoubleStar(x, y);
    OneStarStays(Split(x), Split(y));
    FormsAccept(x + "/**/" + y, t);
    TwoForms(Split(x), Split(y), x + "/**/" + y);
    TwoForms(Split(x), Split(y), x + "/" + y);
    forall v | IsForm(Split(x) + ["**"] + Split(y), v) ensures v == x + "/**/" + y || v == x + "/" + y {
      TwoForms(Split(x), Split(y), v);
    }
    WholeForm(a, b, t);
    ShortForm(a, b, t);
  }
}
