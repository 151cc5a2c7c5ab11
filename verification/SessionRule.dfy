/** Rule patterns "Tool(glob)" and the session rule that "Always Allow" records
    (internal/permissions/session_rule.go, match.go and rules.go). */
module SessionRule {
  import opened Options
  import opened Wildcard
  import opened DoubleStar

  // ----- White space -----

  /** The runes that TrimSpace removes. */
  predicate IsSpace(c: char) {
    '\t' <= c <= '\r' || c == ' ' || c == '\U{85}' || c == '\U{A0}' || c == '\U{1680}'
    || '\U{2000}' <= c <= '\U{200A}' || c == '\U{2028}' || c == '\U{2029}' || c == '\U{202F}'
    || c == '\U{205F}' || c == '\U{3000}'
  }

  function TrimLeft(s: string): (r: string)
    ensures r != "" ==> !IsSpace(r[0])
    ensures r != "" ==> s != "" && r[|r| - 1] == s[|s| - 1]
  {
    if s != "" && IsSpace(s[0]) then TrimLeft(s[1..]) else s
  }

  function TrimRight(s: string): (r: string)
    ensures r <= s
    ensures r != "" ==> !IsSpace(r[|r| - 1])
  {
    if s != "" && IsSpace(s[|s| - 1]) then TrimRight(s[..|s| - 1]) else s
  }

  function TrimSpace(s: string): (r: string)
    ensures r != "" ==> !IsSpace(r[0]) && !IsSpace(r[|r| - 1])
  {
    TrimRight(TrimLeft(s))
  }

  predicate Trimmed(s: string) {
    s != "" && !IsSpace(s[0]) && !IsSpace(s[|s| - 1])
  }

  predicate AllSpace(s: string) {
    forall i :: 0 <= i < |s| ==> IsSpace(s[i])
  }

  lemma {:induction false} TrimLeftCuts(s: string) returns (a: string)
    ensures s == a + TrimLeft(s) && AllSpace(a)
  {
    if s != "" && IsSpace(s[0]) {
      var more := TrimLeftCuts(s[1..]);
      a := [s[0]] + more;
    } else {
      a := "";
    }
  }

  lemma {:induction false} TrimRightCuts(s: string) returns (b: string)
    ensures s == TrimRight(s) + b && AllSpace(b)
  {
    if s != "" && IsSpace(s[|s| - 1]) {
      var more := TrimRightCuts(s[..|s| - 1]);
      b := more + [s[|s| - 1]];
    } else {
      b := "";
    }
  }

  /** Trimming takes white space from both ends and nothing else. */
  lemma {:induction false} TrimSpaceCuts(s: string) returns (a: string, b: string)
    ensures s == a + TrimSpace(s) + b && AllSpace(a) && AllSpace(b)
    ensures TrimSpace(s) != "" ==> !IsSpace(TrimSpace(s)[0]) && !IsSpace(TrimSpace(s)[|TrimSpace(s)| - 1])
  {
    a := TrimLeftCuts(s);
    b := TrimRightCuts(TrimLeft(s));
  }

  lemma {:induction false} TrimmedStays(s: string)
    requires Trimmed(s)
    ensures TrimSpace(s) == s
  {
  }

  // ----- Patterns -----

  datatype ParsedPattern = ParsedPattern(tool: string, glob: string)

  function IndexOf(s: string, c: char): (r: Option<nat>)
    ensures r.None? ==> c !in s
    ensures r.Some? ==> r.value < |s| && s[r.value] == c && c !in s[..r.value]
  {
    if s == "" then None
    else if s[0] == c then Some(0)
    else
      var rest := IndexOf(s[1..], c);
      if rest.None? then None
      else
        assert s[..rest.value + 1] == [s[0]] + s[1..][..rest.value];
        Some(rest.value + 1)
  }

  /** ParsePattern: None for a malformed pattern. */
  function ParsePattern(pattern: string): Option<ParsedPattern> {
    var p := TrimSpace(pattern);
    var open := IndexOf(p, '(');
    if p == "" || open.None? then None
    else
      var tool := TrimSpace(p[..open.value]);
      if tool == "" || p[|p| - 1] != ')' then None
      else
        var glob := p[open.value + 1..|p| - 1];
        if glob == "" then None else Some(ParsedPattern(tool, glob))
  }

  lemma {:induction false} FirstOpen(name: string, rest: string, c: char)
    requires c !in name && rest != "" && rest[0] == c
    ensures IndexOf(name + rest, c) == Some(|name|)
  {
    if name == "" {
      assert name + rest == rest;
    } else {
      FirstOpen(name[1..], rest, c);
      assert (name + rest)[1..] == name[1..] + rest;
    }
  }

  /** The pattern is a name, a parenthesis and a glob up to the closing parenthesis at its end. */
  predicate IsParsed(p: string, name: string, tool: string, glob: string) {
    p == name + "(" + glob + ")" && '(' !in name && TrimSpace(name) == tool && tool != "" && glob != ""
  }

  lemma {:induction false} ParsedParts(name: string, tool: string, glob: string, pattern: string)
    requires IsParsed(TrimSpace(pattern), name, tool, glob)
    ensures ParsePattern(pattern) == Some(ParsedPattern(tool, glob))
  {
    var p, rest := TrimSpace(pattern), "(" + glob + ")";
    assert p == name + rest;
    FirstOpen(name, rest, '(');
    assert p[..|name|] == name && p[|name| + 1..|p| - 1] == glob && p[|p| - 1] == ')';
  }

  /** Exactly such patterns are well formed. */
  lemma {:induction false} ParseIsExact(pattern: string, tool: string, glob: string)
    ensures ParsePattern(pattern) == Some(ParsedPattern(tool, glob)) <==>
            exists name :: IsParsed(TrimSpace(pattern), name, tool, glob)
  {
    if ParsePattern(pattern) == Some(ParsedPattern(tool, glob)) {
      var p := TrimSpace(pattern);
      var open := IndexOf(p, '(').value;
      assert p[open] == '(' && p == p[..open] + "(" + p[open + 1..|p| - 1] + ")";
      assert IsParsed(p, p[..open], tool, glob);
    }
    if name :| IsParsed(TrimSpace(pattern), name, tool, glob) {
      ParsedParts(name, tool, glob, pattern);
    }
  }

  /** normalizePathSeparators: on a system whose separator is a backslash it becomes a slash. */
  function Normalize(s: string, windows: bool): (r: string)
    ensures |r| == |s|
    ensures forall i :: 0 <= i < |s| ==> r[i] == if windows && s[i] == '\\' then '/' else s[i]
  {
    seq(|s|, i requires 0 <= i < |s| => if windows && s[i] == '\\' then '/' else s[i])
  }

  /** matches: the pattern is well formed, names the tool and its glob accepts the target. */
  ghost predicate RuleMatches(pattern: string, tool: string, target: string, windows: bool) {
    var parsed := ParsePattern(pattern);
    parsed.Some? && parsed.value.tool == tool && GlobAccepts(parsed.value.glob, Normalize(target, windows))
  }

  method MatchesRule(pattern: string, tool: string, target: string, windows: bool) returns (ok: bool)
    ensures ok <==> RuleMatches(pattern, tool, target, windows)
  {
    var parsed := ParsePattern(pattern);
    if parsed.None? {
      return false;
    }
    if parsed.value.tool != tool {
      return false;
    }
    ok := GlobMatch(parsed.value.glob, Normalize(target, windows));
  }

  // ----- Escaping -----

  predicate IsMeta(c: char) {
    c == '*' || c == '?' || c == '[' || c == '\\'
  }

  function Escaped(s: string): (r: string)
    ensures s != "" ==> r != ""
  {
    if s == "" then "" else (if IsMeta(s[0]) then ['\\', s[0]] else [s[0]]) + Escaped(s[1..])
  }

  lemma {:induction false} EscapedConcat(a: string, b: string)
    ensures Escaped(a + b) == Escaped(a) + Escaped(b)
  {
    if a == "" {
      assert a + b == b;
    } else {
      EscapedConcat(a[1..], b);
      var head := if IsMeta(a[0]) then ['\\', a[0]] else [a[0]];
      assert (a + b)[1..] == a[1..] + b;
      assert head + (Escaped(a[1..]) + Escaped(b)) == head + Escaped(a[1..]) + Escaped(b);
    }
  }

  method EscapeGlob(s: string) returns (r: string)
    ensures r == Escaped(s)
  {
    r := "";
    for i := 0 to |s|
      invariant r == Escaped(s[..i])
    {
      assert s[..i + 1] == s[..i] + [s[i]];
      EscapedConcat(s[..i], [s[i]]);
      assert [s[i]][1..] == "";
      if IsMeta(s[i]) {
        r := r + ['\\'];
      }
      r := r + [s[i]];
    }
    assert s[..|s|] == s;
  }

  /** An escaped text is never two stars in a row: after an escape the next rune is literal. */
  lemma {:induction false} EscapedHasNoDoubleStar(s: string)
    ensures !ContainsDoubleStar(Escaped(s))
    ensures Escaped(s) == "" || Escaped(s)[0] != '*'
  {
    if s != "" {
      EscapedHasNoDoubleStar(s[1..]);
      var rest, e := Escaped(s[1..]), Escaped(s);
      var d := |e| - |rest|;
      forall k | 0 <= k < |e| - 1 ensures !(e[k] == '*' && e[k + 1] == '*') {
        if k >= d { assert e[k] == rest[k - d] && e[k + 1] == rest[k - d + 1]; }
        if k == d - 1 && rest != "" { assert e[k + 1] == rest[0]; }
      }
    }
  }

  /** The escaped text, as a pattern, accepts the text itself and nothing else. */
  lemma {:induction false} EscapedAccepts(pre: string, s: string, t: string, j: nat)
    requires j <= |t|
    ensures Accepts(pre + Escaped(s), |pre|, t, j) <==> t[j..] == s
    decreases |s|
  {
    var p := pre + Escaped(s);
    if s == "" {
      assert p == pre;
    } else {
      var head := if IsMeta(s[0]) then ['\\', s[0]] else [s[0]];
      assert p == (pre + head) + Escaped(s[1..]);
      assert p[|pre|] == head[0];
      if IsMeta(s[0]) { assert p[|pre| + 1] == s[0]; }
      assert TokenAt(p, |pre|) == Literal(s[0]) && NextAt(p, |pre|) == |pre + head|;
      if j < |t| {
        EscapedAccepts(pre + head, s[1..], t, j + 1);
        assert t[j..] == [t[j]] + t[j + 1..] && s == [s[0]] + s[1..];
        assert t[j..][0] == t[j] && t[j..][1..] == t[j + 1..];
      } else {
        assert t[j..] == "";
      }
    }
  }

  lemma {:induction false} EscapedGlobAccepts(s: string, t: string)
    ensures GlobAccepts(Escaped(s), t) <==> t == s
  {
    var e := Escaped(s);
    var segs := Split(e);
    EscapedHasNoDoubleStar(s);
    JoinSplit(e);
    NoSegmentIsStar(segs);
    NoStarsNoVariants(segs);
    assert forall keep :: IsVariant(segs, keep) ==> Join(Keep(segs, keep)) == e;
    EscapedAccepts("", s, t, 0);
    assert "" + e == e && t[0..] == t;
    AcceptsIsMatch(e, t);
  }

  // ----- The session rule -----

  /** The tool and target for which a rule is recorded. */
  predicate Recordable(tool: string, target: string) {
    TrimSpace(tool) != "" && TrimSpace(target) != "" && '(' !in TrimSpace(tool) && ')' !in TrimSpace(tool)
  }

  /** SessionAllowRule: the pattern recorded for one approved call, or None. */
  function SessionPattern(tool: string, target: string, windows: bool): Option<string> {
    if !Recordable(tool, target) then None
    else Some(TrimSpace(tool) + "(" + Escaped(Normalize(TrimSpace(target), windows)) + ")")
  }

  /** Printing a rule and parsing it back. */
  lemma {:induction false} PrintThenParse(name: string, glob: string)
    requires Trimmed(name) && '(' !in name && glob != ""
    ensures ParsePattern(name + "(" + glob + ")") == Some(ParsedPattern(name, glob))
  {
    var p := name + "(" + glob + ")";
    TrimmedStays(p);
    TrimmedStays(name);
    var open := IndexOf(p, '(');
    assert p[|name|] == '(';
    assert p[|p| - 1] == ')';
    assert open.value == |name|;
    assert p[..|name|] == name;
    assert p[|name| + 1..|p| - 1] == glob;
  }

  /** A session rule is exact: it matches the approved tool and target, and nothing wider. */
  lemma {:induction false} SessionRuleIsExact(tool: string, target: string, windows: bool, n: string, t: string)
    requires SessionPattern(tool, target, windows).Some?
    ensures RuleMatches(SessionPattern(tool, target, windows).value, n, t, windows) <==>
            n == TrimSpace(tool) && Normalize(t, windows) == Normalize(TrimSpace(target), windows)
  {
    var goal := Normalize(TrimSpace(target), windows);
    PrintThenParse(TrimSpace(tool), Escaped(goal));
    EscapedGlobAccepts(goal, Normalize(t, windows));
  }

  lemma {:induction false} TrimLeftShortens(s: string)
    ensures |TrimLeft(s)| < |s| || TrimLeft(s) == s
  {
    if s != "" && IsSpace(s[0]) { TrimLeftShortens(s[1..]); }
  }

  lemma {:induction false} TrimShortens(s: string)
    ensures |TrimSpace(s)| < |s| || TrimSpace(s) == s
  {
    TrimLeftShortens(s);
  }

  /** A lone star accepts everything. */
  lemma {:induction false} StarAcceptsFrom(t: string, j: nat)
    requires j <= |t|
    ensures Accepts("*", 0, t, j)
    decreases |t| - j
  {
    assert TokenAt("*", 0).Star?;
    if j < |t| { StarAcceptsFrom(t, j + 1); }
  }

  lemma {:induction false} StarAccepts(t: string)
    ensures GlobAccepts("*", t)
  {
    var segs := Split("*");
    JoinSplit("*");
    NoSegmentIsStar(segs);
    NoStarsNoVariants(segs);
    assert forall keep :: IsVariant(segs, keep) ==> Join(Keep(segs, keep)) == "*";
    StarAcceptsFrom(t, 0);
    AcceptsIsMatch("*", t);
  }

  /** Some rule matches a call exactly when its tool's name has no blank end and no opening parenthesis. */
  lemma {:induction false} SomeRuleCanMatch(tool: string, target: string, windows: bool)
    ensures (exists pattern :: RuleMatches(pattern, tool, target, windows)) <==> Trimmed(tool) && '(' !in tool
  {
    if Trimmed(tool) && '(' !in tool {
      PrintThenParse(tool, "*");
      StarAccepts(Normalize(target, windows));
      assert RuleMatches(tool + "(" + "*" + ")", tool, target, windows);
    }
    forall pattern | RuleMatches(pattern, tool, target, windows) ensures Trimmed(tool) && '(' !in tool {
      ParsedTool(pattern);
    }
  }

  lemma {:induction false} ParsedTool(pattern: string)
    requires ParsePattern(pattern).Some?
    ensures Trimmed(ParsePattern(pattern).value.tool) && '(' !in ParsePattern(pattern).value.tool
  {
    var p := TrimSpace(pattern);
    var before := p[..IndexOf(p, '(').value];
    TrimInside(before, '(');
  }

  lemma {:induction false} TrimInside(s: string, c: char)
    requires c !in s
    ensures c !in TrimSpace(s)
  {
    TrimLeftInside(s, c);
  }

  lemma {:induction false} TrimLeftInside(s: string, c: char)
    requires c !in s
    ensures c !in TrimLeft(s)
  {
    if s != "" && IsSpace(s[0]) { TrimLeftInside(s[1..], c); }
  }

  /** "Always Allow" allows the very call it was chosen for exactly when any rule could, apart from
      targets with blank ends, which the rule stores trimmed, and tools with a closing parenthesis. */
  lemma {:induction false} OwnCallAllowed(tool: string, target: string, windows: bool)
    ensures SessionPattern(tool, target, windows).Some?
              && RuleMatches(SessionPattern(tool, target, windows).value, tool, target, windows) <==>
            (exists pattern :: RuleMatches(pattern, tool, target, windows)) && Trimmed(target) && ')' !in tool
  {
    SomeRuleCanMatch(tool, target, windows);
    TrimShortens(target);
    if Trimmed(tool) { TrimmedStays(tool); }
    if Trimmed(target) { TrimmedStays(target); }
    if SessionPattern(tool, target, windows).Some? {
      SessionRuleIsExact(tool, target, windows, tool, target);
    }
  }

  // ----- Rule sets -----

  datatype Decision = Allow | Deny | Ask

  datatype Rules = Rules(allow: seq<string>, deny: seq<string>, ask: seq<string>)

  ghost predicate SomeRuleMatches(patterns: seq<string>, n: string, t: string, windows: bool) {
    exists i :: 0 <= i < |patterns| && RuleMatches(patterns[i], n, t, windows)
  }

  /** The decision of the first matching rule; deny wins over ask, ask over allow. */
  ghost function RuleDecision(rules: Rules, n: string, t: string, windows: bool): Option<Decision> {
    Precedence(SomeRuleMatches(rules.deny, n, t, windows), SomeRuleMatches(rules.ask, n, t, windows),
               SomeRuleMatches(rules.allow, n, t, windows))
  }

  function Precedence(denied: bool, asked: bool, allowed: bool): Option<Decision> {
    if denied then Some(Deny) else if asked then Some(Ask) else if allowed then Some(Allow) else None
  }

  method AnyMatches(patterns: seq<string>, n: string, t: string, windows: bool) returns (found: bool)
    ensures found <==> SomeRuleMatches(patterns, n, t, windows)
  {
    for i := 0 to |patterns|
      invariant forall k :: 0 <= k < i ==> !RuleMatches(patterns[k], n, t, windows)
    {
      var ok := MatchesRule(patterns[i], n, t, windows);
      if ok {
        return true;
      }
    }
    return false;
  }

  /** FirstMatchingRule, with the rule itself left out. */
  method FirstMatchingRule(rules: Rules, n: string, t: string, windows: bool) returns (d: Option<Decision>)
    ensures d == RuleDecision(rules, n, t, windows)
    ensures d == Some(Deny) <==> SomeRuleMatches(rules.deny, n, t, windows)
    ensures d == Some(Ask) <==>
            !SomeRuleMatches(rules.deny, n, t, windows) && SomeRuleMatches(rules.ask, n, t, windows)
    ensures d == Some(Allow) <==>
            !SomeRuleMatches(rules.deny + rules.ask, n, t, windows) && SomeRuleMatches(rules.allow, n, t, windows)
    ensures d == None <==> !SomeRuleMatches(rules.deny + rules.ask + rules.allow, n, t, windows)
  {
    SomeRuleConcat(rules.deny, rules.ask, n, t, windows);
    SomeRuleConcat(rules.deny + rules.ask, rules.allow, n, t, windows);
    var found := AnyMatches(rules.deny, n, t, windows);
    if found {
      return Some(Deny);
    }
    found := AnyMatches(rules.ask, n, t, windows);
    if found {
      return Some(Ask);
    }
    found := AnyMatches(rules.allow, n, t, windows);
    if found {
      return Some(Allow);
    }
    return None;
  }

  /** Recording "Always Allow" changes the decision of one call only, and only if no rule decided
      it before: a deny or ask rule still wins, and every other call is decided as before. */
  lemma {:induction false} AlwaysAllowChangesOneCall(rules: Rules, tool: string, target: string, windows: bool,
                                                     pattern: string, n: string, t: string)
    requires SessionPattern(tool, target, windows) == Some(pattern)
    ensures RuleDecision(rules.(allow := rules.allow + [pattern]), n, t, windows) ==
              if n == TrimSpace(tool) && Normalize(t, windows) == Normalize(TrimSpace(target), windows)
                 && RuleDecision(rules, n, t, windows).None?
              then Some(Allow)
              else RuleDecision(rules, n, t, windows)
  {
    SessionRuleIsExact(tool, target, windows, n, t);
    SomeRuleSnoc(rules.allow, pattern, n, t, windows);
  }

  lemma {:induction false} SomeRuleConcat(a: seq<string>, b: seq<string>, n: string, t: string, windows: bool)
    ensures SomeRuleMatches(a + b, n, t, windows) <==>
            SomeRuleMatches(a, n, t, windows) || SomeRuleMatches(b, n, t, windows)
  {
    var both := a + b;
    assert forall i :: 0 <= i < |a| ==> both[i] == a[i];
    forall i | 0 <= i < |b| ensures both[|a| + i] == b[i] {}
    if i :| 0 <= i < |b| && RuleMatches(b[i], n, t, windows) {
      assert RuleMatches(both[|a| + i], n, t, windows);
    }
  }

  lemma {:induction false} SomeRuleSnoc(patterns: seq<string>, pattern: string, n: string, t: string, windows: bool)
    ensures SomeRuleMatches(patterns + [pattern], n, t, windows) <==>
            SomeRuleMatches(patterns, n, t, windows) || RuleMatches(pattern, n, t, windows)
  {
    var more := patterns + [pattern];
    assert more[|patterns|] == pattern;
    assert forall i :: 0 <= i < |patterns| ==> more[i] == patterns[i];
  }
}
