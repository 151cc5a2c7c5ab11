/** Exactly when removing one of two adjacent "**" segments loses a string (internal/permissions/match.go). */
module CollapseLimit {
  import opened Wildcard
  import opened DoubleStar
  import opened DoubleStarMeaning

  // ----- Shortest strings -----

  ghost predicate TokenIsLive(t: Token) {
    t.Star? || exists c: char :: AcceptsRune(t, c)
  }

  /** From position i on, every token accepts some rune. */
  ghost predicate Live(p: string, i: nat := 0)
    requires i <= |p|
    decreases |p| - i
  {
    i == |p| || (TokenIsLive(TokenAt(p, i)) && Live(p, NextAt(p, i)))
  }

  /** The runes that a string needs from position i on, stars aside. */
  function Needed(p: string, i: nat): nat
    requires i <= |p|
    decreases |p| - i
  {
    if i == |p| then 0 else (if TokenAt(p, i).Star? then 0 else 1) + Needed(p, NextAt(p, i))
  }

  lemma {:induction false} DeadAcceptsNothing(p: string, i: nat, t: string, j: nat)
    requires i <= |p| && j <= |t| && !Live(p, i)
    ensures !Accepts(p, i, t, j)
    decreases |p| - i + |t| - j
  {
    if TokenAt(p, i).Star? {
      DeadAcceptsNothing(p, i + 1, t, j);
      if j < |t| { DeadAcceptsNothing(p, i, t, j + 1); }
    } else if j < |t| && TokenIsLive(TokenAt(p, i)) {
      DeadAcceptsNothing(p, NextAt(p, i), t, j + 1);
    }
  }

  lemma {:induction false} RunesNeeded(p: string, i: nat, t: string, j: nat)
    requires i <= |p| && j <= |t| && Accepts(p, i, t, j)
    ensures |t| - j >= Needed(p, i)
    decreases |p| - i + |t| - j
  {
    if i < |p| {
      if !TokenAt(p, i).Star? {
        RunesNeeded(p, NextAt(p, i), t, j + 1);
      } else if Accepts(p, i + 1, t, j) {
        RunesNeeded(p, i + 1, t, j);
      } else {
        RunesNeeded(p, i, t, j + 1);
      }
    }
  }

  lemma {:induction false} OneRuneBefore(p: string, i: nat, x: char, t: string, j: nat)
    requires i <= |p| && j <= |t|
    ensures Accepts(p, i, [x] + t, j + 1) == Accepts(p, i, t, j)
    decreases |p| - i + |t| - j
  {
    if i < |p| {
      if TokenAt(p, i).Star? {
        OneRuneBefore(p, i + 1, x, t, j);
        if j < |t| { OneRuneBefore(p, i, x, t, j + 1); }
      } else if j < |t| {
        assert ([x] + t)[j + 1] == t[j];
        OneRuneBefore(p, NextAt(p, i), x, t, j + 1);
      }
    }
  }

  /** A token that is no star takes the first rune. */
  lemma {:induction false} FirstRune(p: string, i: nat, x: char, t: string)
    requires i < |p| && !TokenAt(p, i).Star?
    ensures Accepts(p, i, [x] + t, 0) <==> AcceptsRune(TokenAt(p, i), x) && Accepts(p, NextAt(p, i), t, 0)
  {
    OneRuneBefore(p, NextAt(p, i), x, t, 0);
  }

  lemma {:induction false} Shortest(p: string, i: nat) returns (t: string)
    requires i <= |p| && Live(p, i)
    ensures Accepts(p, i, t, 0) && |t| == Needed(p, i)
    decreases |p| - i
  {
    if i == |p| {
      t := "";
    } else {
      t := Shortest(p, NextAt(p, i));
      if !TokenAt(p, i).Star? {
        var c: char :| AcceptsRune(TokenAt(p, i), c);
        FirstRune(p, i, c, t);
        t := [c] + t;
      }
    }
  }

  lemma {:induction false} NeededSameRest(p: string, k: nat, q: string, l: nat)
    requires SameRest(p, k, q, l)
    ensures Needed(p, k) == Needed(q, l)
    decreases |p| - k
  {
    if k < |p| {
      SameSuffixToken(p, k, q, l);
      NeededSameRest(p, NextAt(p, k), q, NextAt(q, l));
    }
  }

  /** A star cannot make up for a string that is as short as the rest allows. */
  lemma {:induction false} StarIsNoHelp(q: string, i: nat, t: string)
    requires i < |q| && TokenAt(q, i).Star? && |t| == Needed(q, i + 1) && !Accepts(q, i + 1, t, 0)
    ensures !Accepts(q, i, t, 0)
  {
    if 0 < |t| && Accepts(q, i, t, 1) {
      RunesNeeded(q, i, t, 1);
    }
  }

  // ----- A string that is lost -----

  /** At the class that loses the separator. */
  lemma {:induction false} LostAtClass(pre: string, tail: string, i: nat) returns (t: string)
    requires EndsSegment(pre) && StartsWithDoubleStar(tail) && i < |pre| && Live(pre + "**/" + tail, i)
    requires NextAt(pre + tail, i) > |pre| && !KeepsSeparator(pre + tail, |pre|, i)
    ensures Accepts(pre + "**/" + tail, i, t, 0) && !Accepts(pre + tail, i, t, 0) && |t| == Needed(pre + tail, i)
  {
    var p, q := pre + "**/" + tail, pre + tail;
    SameTokenBefore(pre, tail, i, '/');
    var rest := Shortest(p, NextAt(p, i));
    assert SameRest(p, NextAt(p, i), q, NextAt(q, i));
    NeededSameRest(p, NextAt(p, i), q, NextAt(q, i));
    FirstRune(p, i, '/', rest);
    FirstRune(q, i, '/', rest);
    t := ['/'] + rest;
  }

  lemma {:induction false} LostFrom(pre: string, tail: string, i: nat) returns (t: string)
    requires EndsSegment(pre) && StartsWithDoubleStar(tail) && i <= |pre| && Live(pre + "**/" + tail, i)
    requires !KeepsSeparator(pre + tail, |pre|, i)
    ensures Accepts(pre + "**/" + tail, i, t, 0) && !Accepts(pre + tail, i, t, 0) && |t| == Needed(pre + tail, i)
    decreases |pre| - i
  {
    var p, q := pre + "**/" + tail, pre + tail;
    SameTokenBefore(pre, tail, i, '/');
    if NextAt(q, i) > |pre| {
      t := LostAtClass(pre, tail, i);
    } else {
      t := LostFrom(pre, tail, NextAt(q, i));
      if TokenAt(q, i).Star? {
        StarIsNoHelp(q, i, t);
      } else {
        var c: char :| AcceptsRune(TokenAt(p, i), c);
        SameTokenBefore(pre, tail, i, c);
        FirstRune(p, i, c, t);
        FirstRune(q, i, c, t);
        t := [c] + t;
      }
    }
  }

  /** Removing one of two adjacent "**" segments keeps every string if and only if no class loses the
      separator by it, or some token accepts no rune, so that there is no string. */
  lemma {:induction false} CollapseIsExact(pre: string, tail: string)
    requires EndsSegment(pre) && StartsWithDoubleStar(tail)
    ensures (forall t :: Matches(pre + "**/" + tail, t) ==> Matches(pre + tail, t)) <==>
            KeepsSeparator(pre + tail, |pre|, 0) || !Live(pre + "**/" + tail)
  {
    var p, q := pre + "**/" + tail, pre + tail;
    if KeepsSeparator(q, |pre|, 0) {
      forall t | Matches(p, t) ensures Matches(q, t) {
        AcceptsIsMatch(p, t);
        CollapseAccepts(pre, tail, 0, t, 0);
        AcceptsIsMatch(q, t);
      }
    } else if Live(p) {
      var t := LostFrom(pre, tail, 0);
      AcceptsIsMatch(p, t);
      AcceptsIsMatch(q, t);
    } else {
      forall t ensures !Matches(p, t) {
        DeadAcceptsNothing(p, 0, t, 0);
        AcceptsIsMatch(p, t);
      }
    }
  }
}
