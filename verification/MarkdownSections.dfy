/** The sections of a Markdown file (internal/semantic/symbols_generic.go). */
module MarkdownSections {
  import opened Options
  import opened Records

  datatype Heading = Heading(line: nat, level: nat, text: string)

  /** What the heading expression finds in a line: a level and a title that is not blank. */
  type Titles = string -> Option<(nat, string)>

  /** The heading stands at its line. */
  predicate StandsAt(lines: seq<string>, title: Titles, h: Heading) {
    0 < h.line <= |lines| && title(lines[h.line - 1]) == Some((h.level, h.text))
  }

  predicate InOrder(hs: seq<Heading>) {
    forall i, j :: 0 <= i < j < |hs| ==> hs[i].line < hs[j].line
  }

  predicate HasLine(hs: seq<Heading>, line: nat) {
    exists i :: 0 <= i < |hs| && hs[i].line == line
  }

  /** The headings of the first n lines, counted from one. */
  ghost predicate HeadingsOf(lines: seq<string>, title: Titles, n: nat, hs: seq<Heading>)
    requires n <= |lines|
  {
    && (forall i :: 0 <= i < |hs| ==> hs[i].line <= n && StandsAt(lines, title, hs[i]))
    && InOrder(hs)
    && (forall k :: 0 <= k < n && title(lines[k]).Some? ==> HasLine(hs, k + 1))
  }

  lemma {:induction false} HasLineSnoc(hs: seq<Heading>, h: Heading)
    ensures HasLine(hs + [h], h.line)
    ensures forall line :: HasLine(hs, line) ==> HasLine(hs + [h], line)
  {
    var more := hs + [h];
    assert more[|hs|] == h;
    forall line | HasLine(hs, line) ensures HasLine(more, line) {
      var i :| 0 <= i < |hs| && hs[i].line == line;
      assert more[i] == hs[i];
    }
  }

  lemma {:induction false} OneMoreHeading(lines: seq<string>, title: Titles, n: nat, hs: seq<Heading>, h: Heading)
    requires n < |lines| && HeadingsOf(lines, title, n, hs) && h.line == n + 1 && StandsAt(lines, title, h)
    ensures HeadingsOf(lines, title, n + 1, hs + [h])
  {
    HasLineSnoc(hs, h);
  }

  /** The first loop: one heading for each line with a title. */
  method FindHeadings(lines: seq<string>, title: Titles) returns (hs: seq<Heading>)
    ensures HeadingsOf(lines, title, |lines|, hs)
  {
    hs := [];
    for i := 0 to |lines|
      invariant HeadingsOf(lines, title, i, hs)
    {
      var found := title(lines[i]);
      if found.None? {
        continue;
      }
      var heading := Heading(i + 1, found.value.0, found.value.1);
      OneMoreHeading(lines, title, i, hs, heading);
      hs := hs + [heading];
    }
  }

  /** The title of the nearest earlier heading of a lower level, if there is one. */
  ghost predicate IsParent(hs: seq<Heading>, i: nat, parent: string)
    requires i < |hs|
  {
    || (exists j :: 0 <= j < i && IsNearest(hs, i, j) && parent == hs[j].text)
    || (parent == "" && forall j :: 0 <= j < i ==> hs[j].level >= hs[i].level)
  }

  predicate IsNearest(hs: seq<Heading>, i: nat, j: nat)
    requires j < i < |hs|
  {
    hs[j].level < hs[i].level && forall k :: j < k < i ==> hs[k].level >= hs[i].level
  }

  method Parent(hs: seq<Heading>, i: nat) returns (parent: string)
    requires i < |hs|
    ensures IsParent(hs, i, parent)
  {
    var j: int := i - 1;
    while j >= 0
      invariant -1 <= j < i
      invariant forall k :: j < k < i ==> hs[k].level >= hs[i].level
    {
      if hs[j].level < hs[i].level {
        assert IsNearest(hs, i, j);
        return hs[j].text;
      }
      j := j - 1;
    }
    return "";
  }

  /** Where the i-th section ends: before the next heading, or with the last line. */
  function SectionEnd(total: nat, hs: seq<Heading>, i: nat): int
    requires i < |hs|
  {
    if i + 1 < |hs| then hs[i + 1].line - 1 else total
  }

  ghost predicate SectionOf(total: nat, hs: seq<Heading>, i: nat, x: Extract)
    requires i < |hs|
  {
    x.name == hs[i].text && IsParent(hs, i, x.parent)
    && x.startLine == hs[i].line && x.endLine == SectionEnd(total, hs, i)
  }

  /** The sections of the first headings. */
  ghost predicate SectionsOf(total: nat, hs: seq<Heading>, xs: seq<Extract>) {
    |xs| <= |hs| && forall i :: 0 <= i < |xs| ==> SectionOf(total, hs, i, xs[i])
  }

  lemma {:induction false} OneMoreSection(total: nat, hs: seq<Heading>, xs: seq<Extract>, x: Extract)
    requires SectionsOf(total, hs, xs) && |xs| < |hs| && SectionOf(total, hs, |xs|, x)
    ensures SectionsOf(total, hs, xs + [x])
  {
  }

  /** What is embedded of a section. */
  function SectionText(path: string, name: string, section: string): string {
    "markdown section " + name + " in " + path + "\n" + section
  }

  /** extractMarkdownSectionRecords, up to makeRecord; `snippet` is the text of a range of lines. */
  method Sections(path: string, lines: seq<string>, title: Titles, snippet: (int, int) -> string)
    returns (hs: seq<Heading>, xs: seq<Extract>)
    ensures HeadingsOf(lines, title, |lines|, hs) && |xs| == |hs| && SectionsOf(|lines|, hs, xs)
    ensures forall x :: x in xs ==> x.text == SectionText(path, x.name, snippet(x.startLine, x.endLine))
  {
    hs := FindHeadings(lines, title);
    xs := [];
    for i := 0 to |hs|
      invariant |xs| == i && SectionsOf(|lines|, hs, xs)
      invariant forall x :: x in xs ==> x.text == SectionText(path, x.name, snippet(x.startLine, x.endLine))
    {
      var end := |lines|;
      if i + 1 < |hs| {
        end := hs[i + 1].line - 1;
      }
      var parent := Parent(hs, i);
      var text := SectionText(path, hs[i].text, snippet(hs[i].line, end));
      var section := Extract(hs[i].text, parent, hs[i].line, end, text);
      OneMoreSection(|lines|, hs, xs, section);
      xs := xs + [section];
    }
  }

  /** The line, counted from one, lies in the section. */
  predicate Holds(x: Extract, line: nat) {
    x.startLine <= line <= x.endLine
  }

  /** The sections come in order and do not overlap. */
  lemma {:induction false} SectionsApart(total: nat, hs: seq<Heading>, xs: seq<Extract>, i: nat, j: nat)
    requires InOrder(hs) && SectionsOf(total, hs, xs) && |xs| == |hs| && i < j < |xs|
    ensures xs[i].startLine <= xs[i].endLine < xs[j].startLine
  {
    assert SectionOf(total, hs, i, xs[i]) && SectionOf(total, hs, j, xs[j]);
    assert hs[i].line < hs[i + 1].line && (i + 1 < j ==> hs[i + 1].line < hs[j].line);
  }

  lemma {:induction false} LastHeading(hs: seq<Heading>, line: nat) returns (i: nat)
    requires hs != [] && hs[0].line <= line
    ensures i < |hs| && hs[i].line <= line && (i + 1 < |hs| ==> line < hs[i + 1].line)
  {
    i := 0;
    while i + 1 < |hs| && hs[i + 1].line <= line
      invariant i < |hs| && hs[i].line <= line
      decreases |hs| - i
    {
      i := i + 1;
    }
  }

  lemma {:induction false} OnlyOne(total: nat, hs: seq<Heading>, xs: seq<Extract>, line: nat, i: nat, j: nat)
    requires InOrder(hs) && SectionsOf(total, hs, xs) && |xs| == |hs| && i < |xs| && j < |xs|
    requires Holds(xs[i], line) && Holds(xs[j], line)
    ensures i == j
  {
    if j < i { SectionsApart(total, hs, xs, j, i); }
    if i < j { SectionsApart(total, hs, xs, i, j); }
  }

  /** Around a place of an ordered list. */
  lemma {:induction false} LinesAround(hs: seq<Heading>, i: nat)
    requires InOrder(hs) && i < |hs|
    ensures forall k :: 0 <= k < i ==> hs[k].line < hs[i].line
    ensures forall k :: i < k < |hs| ==> hs[i + 1].line <= hs[k].line
  {
  }

  lemma {:induction false} BeginsAtHeading(lines: seq<string>, title: Titles, hs: seq<Heading>, line: nat, i: nat)
    requires HeadingsOf(lines, title, |lines|, hs) && i < |hs| && 0 < line <= |lines|
    requires hs[i].line <= line && (i + 1 < |hs| ==> line < hs[i + 1].line)
    ensures hs[i].line == line <==> title(lines[line - 1]).Some?
  {
    assert StandsAt(lines, title, hs[i]);
    if title(lines[line - 1]).Some? {
      assert HasLine(hs, line - 1 + 1);
      LinesAround(hs, i);
    }
  }

  /** From the first heading on, every line lies in a section, in one only, and begins it exactly when it is
      a heading. */
  lemma {:induction false} SectionsTile(lines: seq<string>, title: Titles, hs: seq<Heading>, xs: seq<Extract>,
                                        line: nat) returns (i: nat)
    requires HeadingsOf(lines, title, |lines|, hs) && |xs| == |hs| && SectionsOf(|lines|, hs, xs)
    requires xs != [] && xs[0].startLine <= line <= |lines|
    ensures i < |xs| && Holds(xs[i], line) && forall j :: 0 <= j < |xs| && Holds(xs[j], line) ==> j == i
    ensures line > 0 && (xs[i].startLine == line <==> title(lines[line - 1]).Some?)
  {
    assert SectionOf(|lines|, hs, 0, xs[0]) && StandsAt(lines, title, hs[0]);
    i := LastHeading(hs, line);
    assert SectionOf(|lines|, hs, i, xs[i]);
    forall j | 0 <= j < |xs| && Holds(xs[j], line) ensures j == i { OnlyOne(|lines|, hs, xs, line, i, j); }
    BeginsAtHeading(lines, title, hs, line, i);
  }

  /** No two sections of a file begin at the same line, so none are alike. */
  lemma {:induction false} SectionsDiffer(total: nat, hs: seq<Heading>, xs: seq<Extract>)
    requires InOrder(hs) && |xs| == |hs| && SectionsOf(total, hs, xs)
    ensures AllDiffer(xs)
  {
    forall i, j | 0 <= i < j < |xs| ensures !SameExtract(xs[i], xs[j]) {
      SectionsApart(total, hs, xs, i, j);
    }
  }

  /** The sections are what the extractor yields for some text. */
  ghost predicate AreSections(xs: seq<Extract>) {
    exists lines: seq<string>, title: Titles, hs: seq<Heading> ::
      HeadingsOf(lines, title, |lines|, hs) && |xs| == |hs| && SectionsOf(|lines|, hs, xs)
  }

  lemma {:induction false} AreSectionsDiffer(xs: seq<Extract>)
    requires AreSections(xs)
    ensures AllDiffer(xs)
  {
    var lines: seq<string>, title: Titles, hs: seq<Heading> :|
      HeadingsOf(lines, title, |lines|, hs) && |xs| == |hs| && SectionsOf(|lines|, hs, xs);
    SectionsDiffer(|lines|, hs, xs);
  }
}
