/** Cutting a file into overlapping spans of lines (internal/semantic/symbols_generic.go). */
module LineChunker {
  import opened Options
  import opened Decimal
  import opened Utf8
  import opened Framing
  import MarkdownSections
  import Records
  import Trim = SessionRule

  // ----- Lines -----

  /** Joins the pieces without a separator. */
  function Joined(lines: seq<Bytes>): Bytes {
    if lines == [] then [] else lines[0] + Joined(lines[1..])
  }

  function SplitAfter(text: Bytes): (lines: seq<Bytes>)
    ensures lines != []
    decreases |text|
  {
    match LineFeed(text)
    case None => [text]
    case Some(i) => [text[..i + 1]] + SplitAfter(text[i + 1..])
  }

  /** splitPreserveLineBreaks. */
  function SplitPreserveLineBreaks(text: Bytes): seq<Bytes> {
    if text == [] then [] else SplitAfter(text)
  }

  /** A line with its line feed, which is its last byte and its only one. */
  predicate FullLine(line: Bytes) {
    line != [] && line[|line| - 1] == LF && LF !in line[..|line| - 1]
  }

  /** Every line but the last ends with its only line feed, and the last has none: it alone can be empty. */
  predicate LinesOk(lines: seq<Bytes>) {
    (forall k :: 0 <= k < |lines| - 1 ==> FullLine(lines[k])) && (lines != [] ==> LF !in lines[|lines| - 1])
  }

  lemma {:induction false} OneMoreLine(first: Bytes, rest: seq<Bytes>)
    requires FullLine(first) && LinesOk(rest) && rest != []
    ensures LinesOk([first] + rest) && Joined([first] + rest) == first + Joined(rest)
  {
    var lines := [first] + rest;
    assert lines[1..] == rest;
    assert forall k :: 0 < k < |lines| ==> lines[k] == rest[k - 1];
  }

  lemma {:induction false} SplitAfterLines(text: Bytes)
    ensures Joined(SplitAfter(text)) == text && LinesOk(SplitAfter(text))
    decreases |text|
  {
    match LineFeed(text)
    case None =>
      assert [text][1..] == [];
      assert Joined([text]) == text + Joined([]) == text;
    case Some(i) =>
      var first := text[..i + 1];
      SplitAfterLines(text[i + 1..]);
      assert first[..|first| - 1] == text[..i];
      OneMoreLine(first, SplitAfter(text[i + 1..]));
      assert text == first + text[i + 1..];
  }

  /** The lines join to the text; every one but the last ends with its only line feed, and only the
      last can be empty. */
  lemma {:induction false} LinesOfText(text: Bytes)
    ensures Joined(SplitPreserveLineBreaks(text)) == text
    ensures LinesOk(SplitPreserveLineBreaks(text))
    ensures SplitPreserveLineBreaks(text) == [] <==> text == []
  {
    if text != [] { SplitAfterLines(text); }
  }

  // ----- Spans -----

  /** Lines start..end, counted from zero, end excluded. */
  datatype Span = Span(start: nat, end: nat)

  function Size(lines: seq<Bytes>, start: nat, end: nat): nat
    requires start <= end <= |lines|
  {
    if start == end then 0 else Size(lines, start, end - 1) + |lines[end - 1]|
  }

  /** Where the greedy span that holds `start..end` stops. */
  function SpanEnd(lines: seq<Bytes>, start: nat, end: nat, maxBytes: nat): (r: nat)
    requires start <= end <= |lines|
    ensures end <= r <= |lines|
    decreases |lines| - end
  {
    if end == |lines| then end
    else if Size(lines, start, end) > 0 && Size(lines, start, end) + |lines[end]| > maxBytes then end
    else SpanEnd(lines, start, end + 1, maxBytes)
  }

  function NextStart(span: Span, overlap: nat): (r: nat)
    requires span.start < span.end
    ensures span.start < r <= span.end
  {
    if overlap > 0 && span.end - overlap > span.start then span.end - overlap else span.end
  }

  /** All the spans from line idx on, blank ones included. */
  function Spans(lines: seq<Bytes>, idx: nat, maxBytes: nat, overlap: nat): (spans: seq<Span>)
    requires idx < |lines|
    ensures spans != [] && spans[0].start == idx && spans[0].start < spans[0].end <= |lines|
    decreases |lines| - idx
  {
    var span := Span(idx, SpanEnd(lines, idx, idx, maxBytes));
    assert SpanEnd(lines, idx, idx, maxBytes) == SpanEnd(lines, idx, idx + 1, maxBytes);
    if span.end >= |lines| then [span] else [span] + Spans(lines, NextStart(span, overlap), maxBytes, overlap)
  }

  function Text(lines: seq<Bytes>, span: Span): Bytes
    requires span.start <= span.end <= |lines|
  {
    TrimSpace(Joined(lines[span.start..span.end]))
  }

  predicate Fits(lines: seq<Bytes>, span: Span) {
    span.start < span.end <= |lines|
  }

  /** The spans that hold some text. */
  function Kept(lines: seq<Bytes>, spans: seq<Span>): (kept: seq<Span>)
    requires forall k :: 0 <= k < |spans| ==> Fits(lines, spans[k])
    ensures forall k :: 0 <= k < |kept| ==> Fits(lines, kept[k])
  {
    if spans == [] then []
    else
      var rest, last := Kept(lines, spans[..|spans| - 1]), spans[|spans| - 1];
      assert Fits(lines, last);
      if Text(lines, last) != [] then rest + [last] else rest
  }

  // ----- What the spans promise -----

  lemma {:induction false} SpansInside(lines: seq<Bytes>, idx: nat, maxBytes: nat, overlap: nat)
    requires idx < |lines|
    ensures var spans := Spans(lines, idx, maxBytes, overlap);
      (forall k :: 0 <= k < |spans| ==> Fits(lines, spans[k]) && idx <= spans[k].start)
      && spans[|spans| - 1].end == |lines|
    decreases |lines| - idx
  {
    var spans := Spans(lines, idx, maxBytes, overlap);
    if spans[0].end < |lines| {
      var next := NextStart(spans[0], overlap);
      var rest := Spans(lines, next, maxBytes, overlap);
      SpansInside(lines, next, maxBytes, overlap);
      assert spans == [spans[0]] + rest;
      forall k | 0 <= k < |spans| ensures Fits(lines, spans[k]) && idx <= spans[k].start {
        if k > 0 { assert spans[k] == rest[k - 1]; }
      }
    }
  }

  /** How far a span reaches into the next one. */
  predicate Overlaps(span: Span, next: Span, overlap: nat) {
    && span.start < next.start
    && span.end - next.start == (if span.end - span.start > overlap then overlap else 0)
  }

  lemma {:induction false} SpansOverlap(lines: seq<Bytes>, idx: nat, maxBytes: nat, overlap: nat, k: nat)
    requires idx < |lines| && k < |Spans(lines, idx, maxBytes, overlap)| - 1
    ensures var spans := Spans(lines, idx, maxBytes, overlap); Overlaps(spans[k], spans[k + 1], overlap)
    decreases |lines| - idx
  {
    var spans := Spans(lines, idx, maxBytes, overlap);
    var next := NextStart(spans[0], overlap);
    var rest := Spans(lines, next, maxBytes, overlap);
    assert spans == [spans[0]] + rest;
    assert spans[k + 1] == rest[k];
    if k > 0 {
      SpansOverlap(lines, next, maxBytes, overlap, k - 1);
      assert spans[k] == rest[k - 1];
    }
  }

  /** The spans start at the first line, end at the last, leave no line out, and overlap by exactly the
      number of lines asked for when the earlier span is longer than that, else not at all. */
  lemma {:induction false} SpansCover(lines: seq<Bytes>, idx: nat, maxBytes: nat, overlap: nat)
    requires idx < |lines|
    ensures var spans := Spans(lines, idx, maxBytes, overlap);
      (forall k :: 0 <= k < |spans| ==> Fits(lines, spans[k]) && idx <= spans[k].start)
      && spans[0].start == idx && spans[|spans| - 1].end == |lines|
    ensures var spans := Spans(lines, idx, maxBytes, overlap);
      forall k :: 0 <= k < |spans| - 1 ==> Overlaps(spans[k], spans[k + 1], overlap)
  {
    SpansInside(lines, idx, maxBytes, overlap);
    var spans := Spans(lines, idx, maxBytes, overlap);
    forall k | 0 <= k < |spans| - 1 ensures Overlaps(spans[k], spans[k + 1], overlap) {
      SpansOverlap(lines, idx, maxBytes, overlap, k);
    }
  }

  /** Every line lies in a span. */
  lemma {:induction false} EveryLineCovered(lines: seq<Bytes>, idx: nat, maxBytes: nat, overlap: nat, line: nat)
    returns (k: nat)
    requires idx <= line < |lines|
    ensures var spans := Spans(lines, idx, maxBytes, overlap); k < |spans| && spans[k].start <= line < spans[k].end
    decreases |lines| - idx
  {
    var spans := Spans(lines, idx, maxBytes, overlap);
    if line < spans[0].end {
      k := 0;
    } else {
      var next := NextStart(spans[0], overlap);
      var j := EveryLineCovered(lines, next, maxBytes, overlap, line);
      assert spans[1..] == Spans(lines, next, maxBytes, overlap);
      k := j + 1;
      assert spans[k] == spans[1..][j];
    }
  }

  lemma {:induction false} SpanEndHolds(lines: seq<Bytes>, start: nat, end: nat, maxBytes: nat)
    requires start < end <= |lines| && LinesOk(lines)
    requires end - start > 1 ==> Size(lines, start, end) <= maxBytes
    ensures var r := SpanEnd(lines, start, end, maxBytes);
      (r - start > 1 ==> Size(lines, start, r) <= maxBytes)
      && (r < |lines| ==> Size(lines, start, r) + |lines[r]| > maxBytes)
    decreases |lines| - end
  {
    if end < |lines| && !(Size(lines, start, end) > 0 && Size(lines, start, end) + |lines[end]| > maxBytes) {
      SizeIsPositive(lines, start, end);
      SpanEndHolds(lines, start, end + 1, maxBytes);
    }
  }

  lemma {:induction false} SizeIsPositive(lines: seq<Bytes>, start: nat, end: nat)
    requires start < end < |lines| && LinesOk(lines)
    ensures Size(lines, start, end) > 0
  {
    assert FullLine(lines[end - 1]);
  }

  lemma {:induction false} SizesFit(lines: seq<Bytes>, idx: nat, maxBytes: nat, overlap: nat, k: nat)
    requires idx < |lines| && LinesOk(lines) && k < |Spans(lines, idx, maxBytes, overlap)|
    ensures var s := Spans(lines, idx, maxBytes, overlap)[k];
      Fits(lines, s)
      && (s.end - s.start > 1 ==> Size(lines, s.start, s.end) <= maxBytes)
      && (s.end < |lines| ==> Size(lines, s.start, s.end) + |lines[s.end]| > maxBytes)
    decreases |lines| - idx
  {
    var spans := Spans(lines, idx, maxBytes, overlap);
    if k == 0 {
      assert SpanEnd(lines, idx, idx, maxBytes) == SpanEnd(lines, idx, idx + 1, maxBytes);
      SpanEndHolds(lines, idx, idx + 1, maxBytes);
    } else {
      SizesFit(lines, NextStart(spans[0], overlap), maxBytes, overlap, k - 1);
      assert spans[k] == Spans(lines, NextStart(spans[0], overlap), maxBytes, overlap)[k - 1];
    }
  }

  /** The bytes of a span are those of its joined lines. */
  lemma {:induction false} SizeOfJoined(lines: seq<Bytes>, start: nat, end: nat)
    requires start <= end <= |lines|
    ensures Size(lines, start, end) == |Joined(lines[start..end])|
  {
    if start < end {
      SizeOfJoined(lines, start, end - 1);
      JoinedAppend(lines[start..end - 1], lines[end - 1]);
      assert lines[start..end] == lines[start..end - 1] + [lines[end - 1]];
    } else {
      assert lines[start..end] == [];
    }
  }

  lemma {:induction false} JoinedAppend(lines: seq<Bytes>, line: Bytes)
    ensures Joined(lines + [line]) == Joined(lines) + line
  {
    if lines != [] {
      assert (lines + [line])[1..] == lines[1..] + [line];
      JoinedAppend(lines[1..], line);
    } else {
      assert [line][1..] == [];
    }
  }

  /** A span of several lines holds at most maxBytes bytes; one that stops early would overflow with
      the next line. */
  lemma {:induction false} SpansFit(lines: seq<Bytes>, maxBytes: nat, overlap: nat, k: nat)
    requires LinesOk(lines) && lines != [] && k < |Spans(lines, 0, maxBytes, overlap)|
    ensures var s := Spans(lines, 0, maxBytes, overlap)[k];
      Fits(lines, s)
      && (s.end - s.start > 1 ==> |Joined(lines[s.start..s.end])| <= maxBytes)
      && (s.end < |lines| ==> |Joined(lines[s.start..s.end + 1])| > maxBytes)
  {
    var s := Spans(lines, 0, maxBytes, overlap)[k];
    SizesFit(lines, 0, maxBytes, overlap, k);
    SizeOfJoined(lines, s.start, s.end);
    if s.end < |lines| { SizeOfJoined(lines, s.start, s.end + 1); }
  }

  // ----- Nothing but blanks is dropped -----

  predicate HasText(s: Bytes) {
    TrimSpace(s) != []
  }

  lemma {:induction false} SpaceInFront(a: Bytes, b: Bytes)
    requires SpaceLength(a) > 0
    ensures SpaceLength(a + b) == SpaceLength(a)
  {
  }

  lemma {:induction false} NoSpaceInFront(a: Bytes, b: Bytes)
    requires SpaceLength(a + b) == 0
    ensures SpaceLength(a) == 0
  {
    if SpaceLength(a) > 0 { SpaceInFront(a, b); }
  }

  lemma {:induction false} SpaceAtEndIsPart(s: Bytes)
    requires s != [] && SpaceLength(s) == 0
    ensures SpaceAtEnd(s) < |s|
  {
    assert s[0..] == s;
  }

  lemma {:induction false} RightKeepsSome(s: Bytes)
    requires s != [] && SpaceLength(s) == 0
    ensures TrimRight(s) != []
    decreases |s|
  {
    var n := SpaceAtEnd(s);
    SpaceAtEndIsPart(s);
    if n > 0 {
      var front, last := s[..|s| - n], s[|s| - n..];
      assert s == front + last;
      NoSpaceInFront(front, last);
      RightKeepsSome(front);
    }
  }

  lemma {:induction false} LeftLeavesText(s: Bytes)
    ensures TrimLeft(s) == [] || SpaceLength(TrimLeft(s)) == 0
  {
    if SpaceLength(s) > 0 { LeftLeavesText(s[SpaceLength(s)..]); }
  }

  /** A text is blank when nothing is left of it by trimming on one side. */
  lemma {:induction false} BlankOnTheLeft(s: Bytes)
    ensures HasText(s) <==> TrimLeft(s) != []
  {
    LeftLeavesText(s);
    if TrimLeft(s) != [] { RightKeepsSome(TrimLeft(s)); }
  }

  /** No white space extends over the end of a line. */
  lemma {:induction false} LineEndsSpace(a: Bytes, b: Bytes)
    requires a != [] && a[|a| - 1] == LF && SpaceLength(a) == 0
    ensures SpaceLength(a + b) == 0
  {
    assert forall i :: 0 <= i < |a| ==> (a + b)[i] == a[i];
  }

  lemma {:induction false} LeftOfLines(a: Bytes, b: Bytes)
    requires a != [] ==> a[|a| - 1] == LF
    ensures TrimLeft(a + b) == [] <==> TrimLeft(a) == [] && TrimLeft(b) == []
    decreases |a|
  {
    var n := SpaceLength(a);
    if a == [] {
      assert a + b == b;
    } else if n > 0 {
      SpaceInFront(a, b);
      assert (a + b)[n..] == a[n..] + b;
      LeftOfLines(a[n..], b);
    } else {
      LineEndsSpace(a, b);
    }
  }

  lemma {:induction false} TextOfTwo(first: Bytes, rest: Bytes)
    requires FullLine(first) || rest == []
    ensures HasText(first + rest) <==> HasText(first) || HasText(rest)
  {
    BlankOnTheLeft(first);
    BlankOnTheLeft(rest);
    BlankOnTheLeft(first + rest);
    if rest == [] {
      assert first + rest == first;
    } else {
      LeftOfLines(first, rest);
    }
  }

  ghost predicate SomeText(lines: seq<Bytes>) {
    exists k :: 0 <= k < |lines| && HasText(lines[k])
  }

  lemma {:induction false} SomeTextCons(first: Bytes, rest: seq<Bytes>)
    ensures SomeText([first] + rest) <==> HasText(first) || SomeText(rest)
  {
    var lines := [first] + rest;
    assert lines[0] == first && forall k :: 0 <= k < |rest| ==> lines[k + 1] == rest[k];
    if HasText(first) { assert HasText(lines[0]); }
    if k :| 0 <= k < |rest| && HasText(rest[k]) { assert HasText(lines[k + 1]); }
  }

  /** The lines are blank together exactly when each of them is. */
  lemma {:induction false} JoinedHasText(lines: seq<Bytes>)
    requires forall k :: 0 <= k < |lines| - 1 ==> FullLine(lines[k])
    ensures HasText(Joined(lines)) <==> SomeText(lines)
  {
    if lines != [] {
      var first, rest := lines[0], lines[1..];
      JoinedHasText(rest);
      assert |lines| == 1 ==> rest == [];
      TextOfTwo(first, Joined(rest));
      assert lines == [first] + rest;
      SomeTextCons(first, rest);
    }
  }

  lemma {:induction false} KeptIfText(lines: seq<Bytes>, spans: seq<Span>, k: nat)
    requires forall j :: 0 <= j < |spans| ==> Fits(lines, spans[j])
    requires k < |spans| && Fits(lines, spans[k]) && Text(lines, spans[k]) != []
    ensures spans[k] in Kept(lines, spans)
  {
    if k < |spans| - 1 {
      KeptIfText(lines, spans[..|spans| - 1], k);
    }
  }

  lemma {:induction false} OnlyTextKept(lines: seq<Bytes>, spans: seq<Span>, s: Span)
    requires (forall j :: 0 <= j < |spans| ==> Fits(lines, spans[j])) && s in Kept(lines, spans)
    ensures s in spans && Fits(lines, s) && Text(lines, s) != []
  {
    var before := spans[..|spans| - 1];
    if s in Kept(lines, before) { OnlyTextKept(lines, before, s); }
  }

  lemma {:induction false} TextOfSpan(lines: seq<Bytes>, s: Span)
    requires LinesOk(lines) && Fits(lines, s)
    ensures Text(lines, s) != [] <==> SomeText(lines[s.start..s.end])
  {
    JoinedHasText(lines[s.start..s.end]);
  }

  lemma {:induction false} KeptIffText(lines: seq<Bytes>, spans: seq<Span>, k: nat)
    requires k < |spans| && forall j :: 0 <= j < |spans| ==> Fits(lines, spans[j])
    ensures Fits(lines, spans[k]) && (spans[k] in Kept(lines, spans) <==> Text(lines, spans[k]) != [])
  {
    var s := spans[k];
    if Text(lines, s) != [] { KeptIfText(lines, spans, k); }
    if s in Kept(lines, spans) { OnlyTextKept(lines, spans, s); }
  }

  lemma {:induction false} SpanKept(lines: seq<Bytes>, spans: seq<Span>, k: nat)
    requires LinesOk(lines) && k < |spans| && forall j :: 0 <= j < |spans| ==> Fits(lines, spans[j])
    ensures spans[k] in Kept(lines, spans) <==> SomeText(lines[spans[k].start..spans[k].end])
  {
    TextOfSpan(lines, spans[k]);
    KeptIffText(lines, spans, k);
  }

  lemma {:induction false} SomeTextInside(lines: seq<Bytes>, start: nat, end: nat, line: nat)
    requires start <= line < end <= |lines| && HasText(lines[line])
    ensures SomeText(lines[start..end])
  {
    var inside := lines[start..end];
    assert inside[line - start] == lines[line];
  }

  lemma {:induction false} LineKept(lines: seq<Bytes>, spans: seq<Span>, k: nat, line: nat)
    requires LinesOk(lines) && k < |spans| && forall j :: 0 <= j < |spans| ==> Fits(lines, spans[j])
    requires spans[k].start <= line < spans[k].end <= |lines| && HasText(lines[line])
    ensures spans[k] in Kept(lines, spans)
  {
    SomeTextInside(lines, spans[k].start, spans[k].end, line);
    SpanKept(lines, spans, k);
  }

  /** A span is kept exactly when one of its lines has some text, and every line with some text lies in a
      kept span. */
  lemma {:induction false} NothingLost(lines: seq<Bytes>, maxBytes: nat, overlap: nat)
    requires LinesOk(lines) && lines != []
    ensures var spans := Spans(lines, 0, maxBytes, overlap);
      forall k :: 0 <= k < |spans| ==> Fits(lines, spans[k])
    ensures var spans := Spans(lines, 0, maxBytes, overlap);
      forall k :: 0 <= k < |spans| ==>
                  (spans[k] in Kept(lines, spans) <==> SomeText(lines[spans[k].start..spans[k].end]))
    ensures var spans := Spans(lines, 0, maxBytes, overlap);
      forall line :: 0 <= line < |lines| && HasText(lines[line]) ==>
                     exists s :: s in Kept(lines, spans) && s.start <= line < s.end
  {
    var spans := Spans(lines, 0, maxBytes, overlap);
    SpansCover(lines, 0, maxBytes, overlap);
    forall k | 0 <= k < |spans|
      ensures spans[k] in Kept(lines, spans) <==> SomeText(lines[spans[k].start..spans[k].end])
    {
      SpanKept(lines, spans, k);
    }
    forall line | 0 <= line < |lines| && HasText(lines[line])
      ensures exists s :: s in Kept(lines, spans) && s.start <= line < s.end
    {
      var k := EveryLineCovered(lines, 0, maxBytes, overlap, line);
      LineKept(lines, spans, k, line);
    }
  }

  // ----- The loop -----

  function Key(span: Span): string {
    DecimalString(span.start + 1) + ":" + DecimalString(span.end)
  }

  lemma {:induction false} DifferentKeys(a: Span, b: Span)
    requires a.start != b.start
    ensures Key(a) != Key(b)
  {
    if Key(a) == Key(b) {
      Records.FrontUnique(':', DecimalString(a.start + 1), DecimalString(a.end),
                          DecimalString(b.start + 1), DecimalString(b.end));
      Records.SameNumber(a.start + 1, b.start + 1);
    }
  }

  /** Every seen key belongs to a span that starts before line idx. */
  ghost predicate SeenBefore(seen: set<string>, idx: nat) {
    forall key :: key in seen ==> exists s: Span :: s.start < idx && key == Key(s)
  }

  lemma {:induction false} UnseenKey(seen: set<string>, span: Span, next: nat)
    requires SeenBefore(seen, span.start) && span.start < next
    ensures Key(span) !in seen && SeenBefore(seen, next) && SeenBefore(seen + {Key(span)}, next)
  {
    forall key | key in seen ensures key != Key(span) {
      var s: Span :| s.start < span.start && key == Key(s);
      DifferentKeys(s, span);
    }
  }

  lemma {:induction false} KeptAppend(lines: seq<Bytes>, spans: seq<Span>, span: Span)
    requires (forall k :: 0 <= k < |spans| ==> Fits(lines, spans[k])) && Fits(lines, span)
    ensures forall k :: 0 <= k < |spans + [span]| ==> Fits(lines, (spans + [span])[k])
    ensures Kept(lines, spans + [span]) == Kept(lines, spans) + if Text(lines, span) != [] then [span] else []
  {
    assert (spans + [span])[..|spans|] == spans;
  }

  /** The inner loop: lines are added until the next one would overflow. */
  method FindEnd(lines: seq<Bytes>, start: nat, maxBytes: nat) returns (end: nat)
    requires start < |lines|
    ensures end == SpanEnd(lines, start, start, maxBytes) && start < end
  {
    var size := 0;
    end := start;
    while end < |lines|
      invariant start <= end <= |lines| && size == Size(lines, start, end)
      invariant SpanEnd(lines, start, start, maxBytes) == SpanEnd(lines, start, end, maxBytes)
    {
      var next := |lines[end]|;
      if size > 0 && size + next > maxBytes {
        break;
      }
      size := size + next;
      end := end + 1;
    }
    if end == start {
      // the guard against an empty span is never needed: the first line is always taken
      assert false;
    }
  }

  lemma {:induction false} SpansStep(lines: seq<Bytes>, idx: nat, maxBytes: nat, overlap: nat, all: seq<Span>,
                                     span: Span)
    requires idx < |lines| && span == Span(idx, SpanEnd(lines, idx, idx, maxBytes)) && span.start < span.end
    ensures all + Spans(lines, idx, maxBytes, overlap) ==
            if span.end >= |lines| then all + [span]
            else (all + [span]) + Spans(lines, NextStart(span, overlap), maxBytes, overlap)
  {
  }

  /** The outer loop of chunkFallbackRecords: the set of seen keys never drops a span. */
  method FindSpans(lines: seq<Bytes>, maxBytes: nat, overlap: nat) returns (kept: seq<Span>, ghost all: seq<Span>)
    requires lines != []
    ensures all == Spans(lines, 0, maxBytes, overlap)
    ensures forall k :: 0 <= k < |all| ==> Fits(lines, all[k])
    ensures kept == Kept(lines, all)
  {
    kept, all := [], [];
    var seen: set<string> := {};
    var idx := 0;
    while idx < |lines|
      invariant idx < |lines| && Spans(lines, 0, maxBytes, overlap) == all + Spans(lines, idx, maxBytes, overlap)
      invariant forall k :: 0 <= k < |all| ==> Fits(lines, all[k])
      invariant kept == Kept(lines, all)
      invariant SeenBefore(seen, idx)
      decreases |lines| - idx
    {
      var end := FindEnd(lines, idx, maxBytes);
      var span := Span(idx, end);
      var chunk := Text(lines, span);
      var next := NextStart(span, overlap);
      UnseenKey(seen, span, next);
      if chunk != [] && Key(span) !in seen {
        seen := seen + {Key(span)};
        kept := kept + [span];
      }
      SpansStep(lines, idx, maxBytes, overlap, all, span);
      KeptAppend(lines, all, span);
      all := all + [span];
      if end >= |lines| {
        break;
      }
      idx := next;
    }
  }

  /** The name of the n-th chunk: its number, padded to three digits. */
  function ChunkName(n: nat): string {
    var digits := DecimalString(n);
    "chunk-" + (if |digits| == 1 then "00" else if |digits| == 2 then "0" else "") + digits
  }

  /** The number is written with three digits at least. */
  lemma {:induction false} NameIs(n: nat) returns (zeros: string)
    ensures ChunkName(n) == "chunk-" + zeros + DecimalString(n) && forall i :: 0 <= i < |zeros| ==> zeros[i] == '0'
    ensures zeros != "" ==> |zeros| + |DecimalString(n)| == 3
    ensures |zeros| + |DecimalString(n)| >= 3
  {
    zeros := if |DecimalString(n)| == 1 then "00" else if |DecimalString(n)| == 2 then "0" else "";
  }

  lemma {:induction false} DifferentNames(m: nat, n: nat)
    requires |DecimalString(m)| < |DecimalString(n)|
    ensures ChunkName(m) != ChunkName(n)
  {
    var d := DecimalString(n);
    NoLeadingZero(n);
    assert d[0] == (48 + Digits(n)[0]) as char != '0';
    if |d| <= 3 {
      var k := 6 + 3 - |d|;
      assert ChunkName(n)[k] == d[0];
      assert ChunkName(m)[k] == '0';
    } else {
      assert |ChunkName(n)| == 6 + |d|;
    }
  }

  /** A chunk's name tells its number. */
  lemma {:induction false} NamesAreNumbers(m: nat, n: nat)
    requires ChunkName(m) == ChunkName(n)
    ensures m == n
  {
    var a, b := DecimalString(m), DecimalString(n);
    if |a| < |b| { DifferentNames(m, n); }
    if |b| < |a| { DifferentNames(n, m); }
    var k := |ChunkName(m)| - |a|;
    assert a == ChunkName(m)[k..] && b == ChunkName(n)[k..];
    Records.SameNumber(m, n);
  }

  /** A chunk record: its name, its lines counted from one, and the text that is embedded. */
  datatype Chunk = Chunk(name: string, startLine: nat, endLine: nat, embed: Bytes)

  function EmbedText(name: string, path: Bytes, text: Bytes): Bytes {
    Ascii("text chunk " + name + " in ") + path + [LF] + text
  }

  /** The chunk of a span; `path` is the normalised path. */
  function AsChunk(lines: seq<Bytes>, path: Bytes, span: Span, n: nat): Chunk
    requires Fits(lines, span)
  {
    Chunk(ChunkName(n), span.start + 1, span.end, EmbedText(ChunkName(n), path, Text(lines, span)))
  }

  const DEFAULT_CHUNK_BYTES := 2048

  /** The chunks of the kept spans, numbered from one. */
  function ChunksOf(lines: seq<Bytes>, path: Bytes, kept: seq<Span>): (chunks: seq<Chunk>)
    requires forall k :: 0 <= k < |kept| ==> Fits(lines, kept[k])
    ensures |chunks| == |kept|
  {
    if kept == [] then []
    else
      var n := |kept| - 1;
      assert Fits(lines, kept[n]);
      ChunksOf(lines, path, kept[..n]) + [AsChunk(lines, path, kept[n], n + 1)]
  }

  lemma {:induction false} ChunkAt(lines: seq<Bytes>, path: Bytes, kept: seq<Span>, k: nat)
    requires k < |kept| && forall j :: 0 <= j < |kept| ==> Fits(lines, kept[j])
    ensures Fits(lines, kept[k]) && ChunksOf(lines, path, kept)[k] == AsChunk(lines, path, kept[k], k + 1)
  {
    if k < |kept| - 1 { ChunkAt(lines, path, kept[..|kept| - 1], k); }
  }

  method NumberChunks(lines: seq<Bytes>, path: Bytes, kept: seq<Span>) returns (chunks: seq<Chunk>)
    requires forall k :: 0 <= k < |kept| ==> Fits(lines, kept[k])
    ensures chunks == ChunksOf(lines, path, kept)
  {
    chunks := [];
    for i := 0 to |kept|
      invariant chunks == ChunksOf(lines, path, kept[..i])
    {
      ghost var before := kept[..i + 1];
      assert before[..i] == kept[..i] && before[i] == kept[i];
      var chunk := AsChunk(lines, path, kept[i], i + 1);
      chunks := chunks + [chunk];
    }
    assert kept[..|kept|] == kept;
  }

  /** The n-th chunk: lines counted from one, and the span's own text under a line that names it. */
  predicate IsChunkOf(lines: seq<Bytes>, path: Bytes, span: Span, n: nat, chunk: Chunk)
    requires Fits(lines, span)
  {
    && chunk.name == ChunkName(n) && chunk.startLine == span.start + 1 && chunk.endLine == span.end
    && chunk.embed == Ascii("text chunk " + chunk.name + " in ") + path + [10]
                      + TrimSpace(Joined(lines[span.start..span.end]))
  }

  /** chunkFallbackRecords, up to makeRecord: one numbered chunk for each kept span. */
  method ChunkFallback(path: Bytes, body: Bytes, maxChunkBytes: int, overlapLines: int)
    returns (chunks: seq<Chunk>, kept: seq<Span>)
    ensures forall k :: 0 <= k < |kept| ==> Fits(SplitPreserveLineBreaks(body), kept[k])
    ensures chunks == ChunksOf(SplitPreserveLineBreaks(body), path, kept)
    ensures forall k :: 0 <= k < |kept| ==> IsChunkOf(SplitPreserveLineBreaks(body), path, kept[k], k + 1, chunks[k])
    ensures body == [] ==> kept == []
    ensures body != [] ==>
      var lines := SplitPreserveLineBreaks(body);
      var spans := Spans(lines, 0, if maxChunkBytes <= 0 then DEFAULT_CHUNK_BYTES else maxChunkBytes,
                         if overlapLines < 0 then 0 else overlapLines);
      (forall k :: 0 <= k < |spans| ==> Fits(lines, spans[k])) && kept == Kept(lines, spans)
  {
    var maxBytes := if maxChunkBytes <= 0 then DEFAULT_CHUNK_BYTES else maxChunkBytes;
    var overlap := if overlapLines < 0 then 0 else overlapLines;
    var lines := SplitPreserveLineBreaks(body);
    chunks, kept := [], [];
    if lines == [] {
      return;
    }
    ghost var all;
    kept, all := FindSpans(lines, maxBytes, overlap);
    chunks := NumberChunks(lines, path, kept);
    forall k | 0 <= k < |kept| ensures IsChunkOf(lines, path, kept[k], k + 1, chunks[k]) {
      ChunkAt(lines, path, kept, k);
    }
  }

  // ----- Chunks have different ids -----

  /** Extracts with the names that NumberChunks gives. */
  predicate ChunkNames(xs: seq<Records.Extract>) {
    forall i :: 0 <= i < |xs| ==> xs[i].name == ChunkName(i + 1)
  }

  lemma {:induction false} NamesStayTrimmed(n: nat)
    ensures Trim.TrimSpace(ChunkName(n)) == ChunkName(n)
  {
    var name, digits := ChunkName(n), DecimalString(n);
    assert name[0] == 'c' && name[|name| - 1] == digits[|digits| - 1];
    Trim.TrimmedStays(name);
  }

  lemma {:induction false} NamesDiffer(m: nat, n: nat)
    requires m != n
    ensures Trim.TrimSpace(ChunkName(m)) != Trim.TrimSpace(ChunkName(n))
  {
    NamesStayTrimmed(m);
    NamesStayTrimmed(n);
    if ChunkName(m) == ChunkName(n) { NamesAreNumbers(m, n); }
  }

  lemma {:induction false} ChunksDiffer(xs: seq<Records.Extract>)
    requires ChunkNames(xs)
    ensures Records.AllDiffer(xs)
  {
    forall i, j | 0 <= i < j < |xs| ensures !Records.SameExtract(xs[i], xs[j]) {
      NamesDiffer(i + 1, j + 1);
    }
  }

  /** The numbered chunks of a file and its file record have different ids, whatever the chunks hold. */
  lemma {:induction false} ChunksHaveNoTwins(env: Records.Env, p: string, body: string, xs: seq<Records.Extract>)
    requires Records.Sound(env.hash) && Records.CleanPath(p) && ChunkNames(xs)
    ensures Records.UniqueIds([Records.FileRecord(env, p, body)] + Records.AsRecords(env, Records.Chunk, p, body, xs))
  {
    ChunksDiffer(xs);
    Records.UniqueInFile(env, Records.Chunk, p, body, xs);
  }

  /** A Markdown file gives its sections, any file numbered chunks. */
  ghost predicate WellExtracted(env: Records.Env, p: string, body: string) {
    && (env.language(p) == "markdown" ==> MarkdownSections.AreSections(env.sections(p, body)))
    && ChunkNames(env.chunks(p, body))
  }

  /** The file is left out, or no Go file, or no two of its symbols are alike. */
  predicate SymbolsDiffer(env: Records.Env, p: string, body: string) {
    env.skip(p, body) || env.language(p) != "go" || Records.AllDiffer(env.symbols(p, body))
  }

  lemma {:induction false} FileHasNoTwins(env: Records.Env, p: string, body: string)
    requires Records.Sound(env.hash) && Records.CleanPath(p) && WellExtracted(env, p, body)
    ensures Records.UniqueIds(Records.FileRecords(env, p, body)) <==> SymbolsDiffer(env, p, body)
  {
    ChunksHaveNoTwins(env, p, body, env.chunks(p, body));
    if env.language(p) == "go" {
      Records.UniqueInFile(env, Records.Symbol, p, body, env.symbols(p, body));
    }
    if env.language(p) == "markdown" {
      MarkdownSections.AreSectionsDiffer(env.sections(p, body));
      Records.UniqueInFile(env, Records.DocSection, p, body, env.sections(p, body));
    }
  }

  /** So no file has two records of one id exactly when no Go file has two symbols alike. */
  lemma {:induction false} FilesHaveNoTwins(env: Records.Env, files: Records.Files)
    requires Records.Sound(env.hash) && Records.CleanFiles(files)
    requires forall p :: p in files ==> WellExtracted(env, p, files[p])
    ensures (forall p :: p in files ==> Records.UniqueIds(Records.RecordsAt(env, files, p))) <==>
            (forall p :: p in files ==> SymbolsDiffer(env, p, files[p]))
  {
    forall p | p in files
      ensures Records.UniqueIds(Records.RecordsAt(env, files, p)) <==> SymbolsDiffer(env, p, files[p])
    {
      FileHasNoTwins(env, p, files[p]);
    }
  }
}
