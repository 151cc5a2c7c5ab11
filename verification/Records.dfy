/** The records of the semantic index: their identity and order, and the scan that makes them from
    the files of a workspace (internal/semantic/records.go, scanner.go). */
module Records {
  import opened Ordering
  import opened Decimal
  import Trim = SessionRule

  datatype Kind = Folder | File | Symbol | DocSection | Chunk

  function KindName(k: Kind): (s: string)
    ensures '\n' !in s
  {
    match k
    case Folder => "folder"
    case File => "file"
    case Symbol => "symbol"
    case DocSection => "doc_section"
    case Chunk => "chunk"
  }

  function KindRank(k: Kind): nat {
    match k
    case Folder => 0
    case File => 1
    case Symbol => 2
    case DocSection => 3
    case Chunk => 4
  }

  datatype Record = Record(id: string, kind: Kind, path: string, language: string, name: string, parent: string,
                           startLine: nat, endLine: nat, contentHash: string, textHash: string,
                           textPreview: string, embedText: string)

  // ----- Identity -----

  function WithoutPrefix(s: string, prefix: string): string {
    if prefix <= s then s[|prefix|..] else s
  }

  function NormalizeRelPath(path: string): string {
    WithoutPrefix(WithoutPrefix(Trim.TrimSpace(path), "./"), "/")
  }

  function IdTail(name: string, textHash: string, startLine: nat, endLine: nat): string {
    name + "\n" + textHash + "\n" + DecimalString(startLine) + "\n" + DecimalString(endLine)
  }

  /** The text whose hash is a record's id. */
  function IdText(kind: Kind, path: string, name: string, startLine: nat, endLine: nat, textHash: string): string {
    KindName(kind) + "\n" + (path + "\n" + IdTail(name, textHash, startLine, endLine))
  }

  function RecordId(hash: string -> string, kind: Kind, path: string, name: string,
                    startLine: nat, endLine: nat, textHash: string): string {
    hash(IdText(kind, NormalizeRelPath(path), Trim.TrimSpace(name), startLine, endLine, textHash))
  }

  function MakeRecord(hash: string -> string, kind: Kind, path: string, language: string, name: string,
                      parent: string, startLine: nat, endLine: nat, contentHash: string, text: string): Record {
    var place, words := NormalizeRelPath(path), Trim.TrimSpace(text);
    var preview := if |words| > 280 then words[..280] else words;
    Record(RecordId(hash, kind, place, name, startLine, endLine, hash(words)), kind, place, language,
           Trim.TrimSpace(name), Trim.TrimSpace(parent), startLine, endLine, contentHash, hash(words), preview, words)
  }

  /** The hash never repeats, and its hexadecimal digits hold no line feed. */
  ghost predicate Sound(hash: string -> string) {
    && (forall a, b :: hash(a) == hash(b) ==> a == b)
    && (forall a :: hash(a) != "" && '\n' !in hash(a))
  }

  lemma {:induction false} FrontUnique(sep: char, a: string, x: string, b: string, y: string)
    requires sep !in a && sep !in b && a + [sep] + x == b + [sep] + y
    ensures a == b && x == y
  {
    var s := a + [sep] + x;
    assert s[|a|] == sep && s[|b|] == sep;
    assert forall i :: 0 <= i < |a| ==> s[i] == a[i];
    assert forall i :: 0 <= i < |b| ==> s[i] == b[i];
    assert a == s[..|a|] && b == s[..|b|];
    assert x == s[|a| + 1..] && y == s[|b| + 1..];
  }

  lemma {:induction false} BackUnique(x: string, a: string, y: string, b: string)
    requires '\n' !in a && '\n' !in b && x + "\n" + a == y + "\n" + b
    ensures a == b && x == y
  {
    var s := x + "\n" + a;
    assert s[|x|] == '\n' && s[|y|] == '\n';
    assert forall i :: |x| < i < |s| ==> s[i] == a[i - |x| - 1];
    assert forall i :: |y| < i < |s| ==> s[i] == b[i - |y| - 1];
    assert x == s[..|x|] && y == s[..|y|];
    assert a == s[|x| + 1..] && b == s[|y| + 1..];
  }

  lemma {:induction false} SameNumber(m: nat, n: nat)
    requires DecimalString(m) == DecimalString(n)
    ensures m == n
  {
    ValueOfDigits(m);
    ValueOfDigits(n);
    var a, b := Digits(m), Digits(n);
    assert |a| == |DecimalString(m)| && |b| == |DecimalString(n)|;
    forall i | 0 <= i < |a| ensures a[i] == b[i] {
      assert DecimalString(m)[i] == (48 + a[i]) as char && DecimalString(n)[i] == (48 + b[i]) as char;
    }
    assert a == b;
  }

  lemma {:induction false} NumberHasNoLineFeed(n: nat)
    ensures '\n' !in DecimalString(n)
  {
  }

  lemma {:induction false} SameTail(name: string, textHash: string, s: nat, e: nat,
                                    name': string, textHash': string, s': nat, e': nat)
    requires '\n' !in textHash && '\n' !in textHash'
    requires IdTail(name, textHash, s, e) == IdTail(name', textHash', s', e')
    ensures name == name' && textHash == textHash' && s == s' && e == e'
  {
    NumberHasNoLineFeed(s);
    NumberHasNoLineFeed(s');
    NumberHasNoLineFeed(e);
    NumberHasNoLineFeed(e');
    var x, x' := name + "\n" + textHash, name' + "\n" + textHash';
    BackUnique(x + "\n" + DecimalString(s), DecimalString(e), x' + "\n" + DecimalString(s'), DecimalString(e'));
    BackUnique(x, DecimalString(s), x', DecimalString(s'));
    BackUnique(name, textHash, name', textHash');
    SameNumber(s, s');
    SameNumber(e, e');
  }

  /** The record's id is computed from its own fields. */
  predicate Identified(hash: string -> string, r: Record) {
    r.id == hash(IdText(r.kind, NormalizeRelPath(r.path), r.name, r.startLine, r.endLine, r.textHash))
  }

  /** Equal ids come from equal kinds and, for paths without line feeds, from equal parts all over. */
  lemma {:induction false} SameId(hash: string -> string, a: Record, b: Record)
    requires Sound(hash) && Identified(hash, a) && Identified(hash, b) && a.id == b.id
    ensures a.kind == b.kind
    ensures ('\n' !in NormalizeRelPath(a.path) + NormalizeRelPath(b.path) + a.textHash + b.textHash) ==>
      (NormalizeRelPath(a.path) == NormalizeRelPath(b.path) && a.name == b.name && a.textHash == b.textHash
       && a.startLine == b.startLine && a.endLine == b.endLine)
  {
    var p, q := NormalizeRelPath(a.path), NormalizeRelPath(b.path);
    var x, y := IdTail(a.name, a.textHash, a.startLine, a.endLine), IdTail(b.name, b.textHash, b.startLine, b.endLine);
    FrontUnique('\n', KindName(a.kind), p + "\n" + x, KindName(b.kind), q + "\n" + y);
    SameName(a.kind, b.kind);
    if '\n' !in p + q + a.textHash + b.textHash {
      FrontUnique('\n', p, x, q, y);
      SameTail(a.name, a.textHash, a.startLine, a.endLine, b.name, b.textHash, b.startLine, b.endLine);
    }
  }

  lemma {:induction false} SameName(k: Kind, l: Kind)
    requires KindName(k) == KindName(l)
    ensures k == l
  {
    assert KindName(k)[0] == KindName(l)[0] && |KindName(k)| == |KindName(l)|;
  }

  // ----- Order -----

  /** The comparison of sortRecords. */
  predicate Less(a: Record, b: Record) {
    if a.path != b.path then Before(a.path, b.path)
    else if KindRank(a.kind) != KindRank(b.kind) then KindRank(a.kind) < KindRank(b.kind)
    else if a.startLine != b.startLine then a.startLine < b.startLine
    else if a.endLine != b.endLine then a.endLine < b.endLine
    else if a.name != b.name then Before(a.name, b.name)
    else Before(a.id, b.id)
  }

  predicate NotAfter(a: Record, b: Record) {
    !Less(b, a)
  }

  lemma {:induction false} ThreeStrings(a: string, b: string, c: string)
    ensures Before(a, b) || Before(b, a) || a == b
    ensures Before(b, c) || Before(c, b) || b == c
    ensures !(Before(a, c) && Before(c, a))
    ensures !(Before(a, b) && Before(b, a)) && !(Before(b, c) && Before(c, b))
    ensures Before(a, b) && Before(b, c) ==> Before(a, c)
  {
    BeforeSeparates(a, b);
    BeforeSeparates(b, c);
    BeforeSeparates(a, c);
    if Before(a, b) && Before(b, c) { BeforeChains(a, b, c); }
  }

  lemma {:induction false} NotAfterOrders()
    ensures Total(NotAfter) && Transitive(NotAfter)
  {
    forall a: Record, b: Record ensures NotAfter(a, b) || NotAfter(b, a) {
      BeforeSeparates(a.path, b.path);
      BeforeSeparates(a.name, b.name);
      BeforeSeparates(a.id, b.id);
    }
    forall a: Record, b: Record, c: Record | NotAfter(a, b) && NotAfter(b, c) ensures NotAfter(a, c) {
      ThreeStrings(a.path, b.path, c.path);
      ThreeStrings(a.name, b.name, c.name);
      ThreeStrings(a.id, b.id, c.id);
    }
  }

  // ----- Scanning -----

  type Vector = seq<real>

  datatype Extract = Extract(name: string, parent: string, startLine: nat, endLine: nat, text: string)

  /** What the scan takes as given: the hash, the filters, the extractors, the renderings of a file
      and of a folder, and the embedding of a text by a model. */
  datatype Env = Env(hash: string -> string, skip: (string, string) -> bool, language: string -> string,
                     baseName: string -> string, dirName: string -> string, snippet: string -> string,
                     symbols: (string, string) -> seq<Extract>, sections: (string, string) -> seq<Extract>,
                     chunks: (string, string) -> seq<Extract>,
                     folderList: (string, set<string>) -> string, folderHash: (string, set<string>) -> string,
                     embed: (string, string) -> Vector)

  type Files = map<string, string>

  /** A path as the walk reports it: normalised, and without line feeds. */
  predicate CleanPath(p: string) {
    p != "" && NormalizeRelPath(p) == p && '\n' !in p
  }

  predicate CleanFiles(files: Files) {
    forall p :: p in files ==> CleanPath(p)
  }

  function CountLineFeeds(s: string): nat {
    if s == "" then 0 else (if s[0] == '\n' then 1 else 0) + CountLineFeeds(s[1..])
  }

  function AsRecords(env: Env, kind: Kind, p: string, body: string, xs: seq<Extract>): (rs: seq<Record>)
    ensures |rs| == |xs|
    ensures forall i :: 0 <= i < |rs| ==>
      rs[i] == MakeRecord(env.hash, kind, p, env.language(p), xs[i].name, xs[i].parent,
                          xs[i].startLine, xs[i].endLine, env.hash(body), xs[i].text)
  {
    seq(|xs|, i requires 0 <= i < |xs| =>
      MakeRecord(env.hash, kind, p, env.language(p), xs[i].name, xs[i].parent,
                 xs[i].startLine, xs[i].endLine, env.hash(body), xs[i].text))
  }

  /** Go files give symbols, Markdown files sections; everything else, and those without any, chunks. */
  function Extracted(env: Env, p: string, body: string): seq<Record> {
    var found :=
      if env.language(p) == "go" then AsRecords(env, Symbol, p, body, env.symbols(p, body))
      else if env.language(p) == "markdown" then AsRecords(env, DocSection, p, body, env.sections(p, body))
      else [];
    if found == [] then AsRecords(env, Chunk, p, body, env.chunks(p, body)) else found
  }

  function FileRecord(env: Env, p: string, body: string): Record {
    MakeRecord(env.hash, File, p, env.language(p), env.baseName(p), env.dirName(p), 1, CountLineFeeds(body) + 1,
               env.hash(body), "file " + p + " (" + env.language(p) + ")\n" + env.snippet(body))
  }

  /** processTask. */
  function FileRecords(env: Env, p: string, body: string): seq<Record> {
    if env.skip(p, body) then [] else [FileRecord(env, p, body)] + Extracted(env, p, body)
  }

  /** The records of one path of the workspace. */
  function RecordsAt(env: Env, files: Files, p: string): seq<Record> {
    if p in files then FileRecords(env, p, files[p]) else []
  }

  function Included(env: Env, files: Files): set<string> {
    set p | p in files && !env.skip(p, files[p])
  }

  function FolderPaths(paths: set<string>): set<string> {
    set p, i | p in paths && 0 <= i < |p| && p[i] == '/' :: p[..i]
  }

  /** The folders are the proper beginnings of the paths. */
  lemma {:induction false} FoldersAre(paths: set<string>, f: string)
    ensures f in FolderPaths(paths) <==> exists p :: p in paths && f + "/" <= p
  {
    if f in FolderPaths(paths) {
      var p, i :| p in paths && 0 <= i < |p| && p[i] == '/' && p[..i] == f;
      assert p[..i + 1] == f + "/";
    }
    if p :| p in paths && f + "/" <= p {
      assert p[|f|] == (f + "/")[|f|] == '/' && p[..|f|] == f;
    }
  }

  function FolderRecord(env: Env, folder: string, paths: set<string>): Record {
    MakeRecord(env.hash, Folder, folder, "", env.baseName(folder), env.dirName(folder), 0, 0,
               env.folderHash(folder, paths), "folder " + folder + " contains: " + env.folderList(folder, paths))
  }

  ghost predicate IsFolderRecord(env: Env, paths: set<string>, r: Record) {
    exists f :: f in FolderPaths(paths) && r == FolderRecord(env, f, paths)
  }

  /** The folders that a folder record stands for. */
  function FoldersOf(env: Env, paths: set<string>, r: Record): set<string> {
    set f | f in FolderPaths(paths) && FolderRecord(env, f, paths) == r
  }

  /** What a full scan of the files finds, in the order of the index: every record as often as its file
      gives it, and one record for every folder. */
  ghost predicate ScanOf(env: Env, files: Files, records: seq<Record>) {
    && SortedBy(records, NotAfter)
    && (forall r :: r in records <==>
                    r in RecordsAt(env, files, r.path) || IsFolderRecord(env, Included(env, files), r))
    && (forall r: Record :: r.kind != Folder ==> multiset(records)[r] == multiset(RecordsAt(env, files, r.path))[r])
    && (forall r: Record :: r.kind == Folder ==> multiset(records)[r] == |FoldersOf(env, Included(env, files), r)|)
  }

  /** The facts about a record that the scan makes. */
  predicate Scanned(env: Env, p: string, body: string, r: Record) {
    && Identified(env.hash, r) && r.path == p && r.contentHash == env.hash(body) && r.kind != Folder
    && r.textHash == env.hash(r.embedText)
    && r.textPreview == (if |r.embedText| > 280 then r.embedText[..280] else r.embedText)
  }

  lemma {:induction false} FileRecordsAreScanned(env: Env, p: string, body: string)
    requires CleanPath(p)
    ensures forall r :: r in FileRecords(env, p, body) ==> Scanned(env, p, body, r)
    ensures forall r :: r in FileRecords(env, p, body) && r.kind == File ==> r == FileRecord(env, p, body)
  {
    forall r | r in FileRecords(env, p, body)
      ensures Scanned(env, p, body, r) && (r.kind == File ==> r == FileRecord(env, p, body))
    {
      OneRecordIsScanned(env, p, body, r);
    }
  }

  lemma {:induction false} OneRecordIsScanned(env: Env, p: string, body: string, r: Record)
    requires CleanPath(p) && r in FileRecords(env, p, body)
    ensures Scanned(env, p, body, r) && (r.kind == File ==> r == FileRecord(env, p, body))
  {
    if r in Extracted(env, p, body) {
      ExtractedIsScanned(env, p, body, r);
    } else {
      FileRecordIsScanned(env, p, body);
    }
  }

  lemma {:induction false} Made(env: Env, kind: Kind, p: string, name: string, parent: string, s: nat, e: nat,
                                body: string, text: string)
    requires CleanPath(p) && kind != Folder
    ensures Scanned(env, p, body,
                    MakeRecord(env.hash, kind, p, env.language(p), name, parent, s, e, env.hash(body), text))
  {
  }

  lemma {:induction false} FileRecordIsScanned(env: Env, p: string, body: string)
    requires CleanPath(p)
    ensures Scanned(env, p, body, FileRecord(env, p, body))
  {
    Made(env, File, p, env.baseName(p), env.dirName(p), 1, CountLineFeeds(body) + 1, body,
         "file " + p + " (" + env.language(p) + ")\n" + env.snippet(body));
  }

  lemma {:induction false} AsRecordsAreScanned(env: Env, kind: Kind, p: string, body: string, xs: seq<Extract>,
                                               r: Record)
    requires CleanPath(p) && kind != Folder && kind != File && r in AsRecords(env, kind, p, body, xs)
    ensures Scanned(env, p, body, r) && r.kind != File
  {
    var rs := AsRecords(env, kind, p, body, xs);
    var i :| 0 <= i < |rs| && rs[i] == r;
    Made(env, kind, p, xs[i].name, xs[i].parent, xs[i].startLine, xs[i].endLine, body, xs[i].text);
  }

  lemma {:induction false} ExtractedIsScanned(env: Env, p: string, body: string, r: Record)
    requires CleanPath(p) && r in Extracted(env, p, body)
    ensures Scanned(env, p, body, r) && r.kind != File
  {
    if r in AsRecords(env, Chunk, p, body, env.chunks(p, body)) {
      AsRecordsAreScanned(env, Chunk, p, body, env.chunks(p, body), r);
    } else if env.language(p) == "go" {
      AsRecordsAreScanned(env, Symbol, p, body, env.symbols(p, body), r);
    } else {
      AsRecordsAreScanned(env, DocSection, p, body, env.sections(p, body), r);
    }
  }

  /** The records of every path, in the order in which the workers finish. */
  method Gather(at: string -> seq<Record>, paths: set<string>) returns (records: seq<Record>)
    requires forall p, r :: r in at(p) ==> r.path == p
    ensures forall r :: multiset(records)[r] == if r.path in paths then multiset(at(r.path))[r] else 0
  {
    records := [];
    var todo := paths;
    while todo != {}
      invariant todo <= paths
      invariant forall r :: multiset(records)[r] == if r.path in paths - todo then multiset(at(r.path))[r] else 0
      decreases |todo|
    {
      var p :| p in todo;
      todo := todo - {p};
      forall r: Record | r.path != p ensures multiset(at(p))[r] == 0 {
        assert r !in at(p);
      }
      records := records + at(p);
    }
  }

  lemma {:induction false} LiesAt(env: Env, p: string, body: string)
    requires CleanPath(p)
    ensures forall r :: r in FileRecords(env, p, body) ==> r.path == p
  {
    FileRecordsAreScanned(env, p, body);
  }

  method ScanFiles(env: Env, files: Files) returns (records: seq<Record>)
    requires CleanFiles(files)
    ensures forall r :: multiset(records)[r] == multiset(RecordsAt(env, files, r.path))[r]
  {
    forall p | p in files ensures forall r :: r in RecordsAt(env, files, p) ==> r.path == p {
      LiesAt(env, p, files[p]);
    }
    records := Gather(p => RecordsAt(env, files, p), files.Keys);
  }

  function MadeFrom(make: string -> Record, folders: set<string>, r: Record): set<string> {
    set f | f in folders && make(f) == r
  }

  /** One record for every folder, in any order. */
  method GatherFolders(make: string -> Record, folders: set<string>) returns (records: seq<Record>)
    ensures forall r :: multiset(records)[r] == |MadeFrom(make, folders, r)|
  {
    records := [];
    var todo, done := folders, {};
    while todo != {}
      invariant todo + done == folders && todo !! done
      invariant forall r :: multiset(records)[r] == |MadeFrom(make, done, r)|
      decreases |todo|
    {
      var f :| f in todo;
      ghost var before := done;
      todo, done := todo - {f}, done + {f};
      forall r ensures |MadeFrom(make, done, r)| == |MadeFrom(make, before, r)| + if r == make(f) then 1 else 0 {
        OneMoreMember(make, before, f, r);
      }
      records := records + [make(f)];
    }
    assert done == folders;
  }

  lemma {:induction false} OneMoreMember(make: string -> Record, before: set<string>, f: string, r: Record)
    requires f !in before
    ensures |MadeFrom(make, before + {f}, r)| == |MadeFrom(make, before, r)| + if r == make(f) then 1 else 0
  {
    var some := MadeFrom(make, before, r);
    assert MadeFrom(make, before + {f}, r) == if r == make(f) then some + {f} else some;
  }

  /** folderRecordsForPaths. */
  method FolderRecords(env: Env, paths: set<string>) returns (records: seq<Record>)
    ensures forall r :: multiset(records)[r] == |FoldersOf(env, paths, r)|
  {
    records := GatherFolders(f => FolderRecord(env, f, paths), FolderPaths(paths));
    forall r ensures multiset(records)[r] == |FoldersOf(env, paths, r)| {
      assert FoldersOf(env, paths, r) == MadeFrom(f => FolderRecord(env, f, paths), FolderPaths(paths), r);
    }
  }

  /** File records and folder records together: which there are, and how often. */
  lemma {:induction false} FoundTogether(env: Env, files: Files, found: seq<Record>, folders: seq<Record>, r: Record)
    requires CleanFiles(files)
    requires multiset(found)[r] == multiset(RecordsAt(env, files, r.path))[r]
    requires multiset(folders)[r] == |FoldersOf(env, Included(env, files), r)|
    ensures r in found + folders <==> r in RecordsAt(env, files, r.path) || IsFolderRecord(env, Included(env, files), r)
    ensures multiset(found + folders)[r] ==
            if r.kind == Folder then |FoldersOf(env, Included(env, files), r)|
            else multiset(RecordsAt(env, files, r.path))[r]
  {
    var paths := Included(env, files);
    if r in RecordsAt(env, files, r.path) { FileRecordsAreScanned(env, r.path, files[r.path]); }
    assert IsFolderRecord(env, paths, r) <==> FoldersOf(env, paths, r) != {} by { FolderMembers(env, paths, r); }
    assert IsFolderRecord(env, paths, r) ==> r.kind == Folder;
    assert r in found <==> r in multiset(found);
    assert r in folders <==> r in multiset(folders);
  }

  lemma {:induction false} FolderMembers(env: Env, paths: set<string>, r: Record)
    ensures IsFolderRecord(env, paths, r) <==> FoldersOf(env, paths, r) != {}
  {
    if IsFolderRecord(env, paths, r) {
      var f :| f in FolderPaths(paths) && r == FolderRecord(env, f, paths);
      assert f in FoldersOf(env, paths, r);
    }
    if FoldersOf(env, paths, r) != {} {
      var f :| f in FoldersOf(env, paths, r);
      assert f in FolderPaths(paths) && r == FolderRecord(env, f, paths);
    }
  }

  /** ScanWorkspace. */
  method ScanWorkspace(env: Env, files: Files) returns (records: seq<Record>)
    requires CleanFiles(files)
    ensures ScanOf(env, files, records)
  {
    var found := ScanFiles(env, files);
    var folders := FolderRecords(env, Included(env, files));
    records := SortRecords(found + folders);
    SortedRecords(found + folders);
    forall r
      ensures r in records <==> r in RecordsAt(env, files, r.path) || IsFolderRecord(env, Included(env, files), r)
      ensures multiset(records)[r] == if r.kind == Folder then |FoldersOf(env, Included(env, files), r)|
                                      else multiset(RecordsAt(env, files, r.path))[r]
    {
      FoundTogether(env, files, found, folders, r);
    }
  }

  /** sortRecords. */
  method SortRecords(records: seq<Record>) returns (sorted: seq<Record>)
    ensures sorted == Sort(records, NotAfter)
  {
    sorted := Sort(records, NotAfter);
  }

  /** By path, then folders before files before symbols before sections before chunks, then by lines, name
      and id. */
  predicate InOrder(a: Record, b: Record) {
    || Before(a.path, b.path)
    || (a.path == b.path &&
        (|| (a.kind.Folder? && !b.kind.Folder?)
         || (a.kind.File? && !b.kind.Folder? && !b.kind.File?)
         || (a.kind.Symbol? && (b.kind.DocSection? || b.kind.Chunk?))
         || (a.kind.DocSection? && b.kind.Chunk?)
         || (a.kind == b.kind &&
             (|| a.startLine < b.startLine
              || (a.startLine == b.startLine && a.endLine < b.endLine)
              || (a.startLine == b.startLine && a.endLine == b.endLine
                  && (|| Before(a.name, b.name)
                      || (a.name == b.name && (Before(a.id, b.id) || a.id == b.id))))))))
  }

  lemma {:induction false} NotAfterIsInOrder(a: Record, b: Record)
    ensures NotAfter(a, b) <==> InOrder(a, b)
  {
    BeforeSeparates(a.path, b.path);
    BeforeSeparates(a.name, b.name);
    BeforeSeparates(a.id, b.id);
  }

  /** Sorting keeps the records and puts them in order. */
  lemma {:induction false} SortedRecords(records: seq<Record>)
    ensures var sorted := Sort(records, NotAfter);
      SortedBy(sorted, NotAfter) && |sorted| == |records| && multiset(sorted) == multiset(records)
    ensures var sorted := Sort(records, NotAfter);
      forall i, j :: 0 <= i < j < |sorted| ==> InOrder(sorted[i], sorted[j])
    ensures forall r :: r in Sort(records, NotAfter) <==> r in records
  {
    NotAfterOrders();
    SortSorts(records, NotAfter);
    SameElements(Sort(records, NotAfter), records);
    var sorted := Sort(records, NotAfter);
    forall i, j | 0 <= i < j < |sorted| ensures InOrder(sorted[i], sorted[j]) {
      NotAfterIsInOrder(sorted[i], sorted[j]);
    }
  }

  // ----- When ids are unique -----

  predicate UniqueIds(records: seq<Record>) {
    forall i, j :: 0 <= i < j < |records| ==> records[i].id != records[j].id
  }

  /** Two extracts that differ in nothing that goes into an id. */
  predicate SameExtract(x: Extract, y: Extract) {
    && Trim.TrimSpace(x.name) == Trim.TrimSpace(y.name) && Trim.TrimSpace(x.text) == Trim.TrimSpace(y.text)
    && x.startLine == y.startLine && x.endLine == y.endLine
  }

  predicate AllDiffer(xs: seq<Extract>) {
    forall i, j :: 0 <= i < j < |xs| ==> !SameExtract(xs[i], xs[j])
  }

  lemma {:induction false} SameExtractSameId(env: Env, kind: Kind, p: string, body: string, xs: seq<Extract>, i: nat,
                                             j: nat)
    requires Sound(env.hash) && CleanPath(p) && kind != Folder && i < |xs| && j < |xs|
    ensures var rs := AsRecords(env, kind, p, body, xs); rs[i].id == rs[j].id <==> SameExtract(xs[i], xs[j])
  {
    var rs := AsRecords(env, kind, p, body, xs);
    Made(env, kind, p, xs[i].name, xs[i].parent, xs[i].startLine, xs[i].endLine, body, xs[i].text);
    Made(env, kind, p, xs[j].name, xs[j].parent, xs[j].startLine, xs[j].endLine, body, xs[j].text);
    if rs[i].id == rs[j].id { SameId(env.hash, rs[i], rs[j]); }
  }

  lemma {:induction false} FileIdIsOther(env: Env, kind: Kind, p: string, body: string, xs: seq<Extract>, i: nat)
    requires Sound(env.hash) && CleanPath(p) && kind != Folder && kind != File && i < |xs|
    ensures FileRecord(env, p, body).id != AsRecords(env, kind, p, body, xs)[i].id
  {
    var f, r := FileRecord(env, p, body), AsRecords(env, kind, p, body, xs)[i];
    FileRecordIsScanned(env, p, body);
    Made(env, kind, p, xs[i].name, xs[i].parent, xs[i].startLine, xs[i].endLine, body, xs[i].text);
    if f.id == r.id { SameId(env.hash, f, r); }
  }

  lemma {:induction false} UniqueExtracts(env: Env, kind: Kind, p: string, body: string, xs: seq<Extract>,
                                          rs: seq<Record>)
    requires Sound(env.hash) && CleanPath(p) && kind != Folder && rs == AsRecords(env, kind, p, body, xs)
    ensures UniqueIds(rs) <==> AllDiffer(xs)
  {
    forall i: nat, j: nat | i < |xs| && j < |xs| ensures rs[i].id == rs[j].id <==> SameExtract(xs[i], xs[j]) {
      SameExtractSameId(env, kind, p, body, xs, i, j);
    }
  }

  lemma {:induction false} UniqueCons(r: Record, rs: seq<Record>)
    requires forall i :: 0 <= i < |rs| ==> r.id != rs[i].id
    ensures UniqueIds([r] + rs) <==> UniqueIds(rs)
  {
    var all := [r] + rs;
    if UniqueIds(all) {
      forall i, j | 0 <= i < j < |rs| ensures rs[i].id != rs[j].id {
        assert all[i + 1].id != all[j + 1].id;
      }
    }
    if UniqueIds(rs) {
      forall i, j | 0 <= i < j < |all| ensures all[i].id != all[j].id {
        if i > 0 { assert rs[i - 1].id != rs[j - 1].id; }
      }
    }
  }

  /** A file's records have unique ids exactly when no two extracts are alike. */
  lemma {:induction false} UniqueInFile(env: Env, kind: Kind, p: string, body: string, xs: seq<Extract>)
    requires Sound(env.hash) && CleanPath(p) && kind != Folder && kind != File
    ensures UniqueIds([FileRecord(env, p, body)] + AsRecords(env, kind, p, body, xs)) <==> AllDiffer(xs)
  {
    var rs := AsRecords(env, kind, p, body, xs);
    UniqueExtracts(env, kind, p, body, xs, rs);
    forall i | 0 <= i < |rs| ensures FileRecord(env, p, body).id != rs[i].id {
      FileIdIsOther(env, kind, p, body, xs, i);
    }
    UniqueCons(FileRecord(env, p, body), rs);
  }

  /** What the extractors and the folder names must give for that: no file yields two records with one
      id, and no folder name ends in white space. */
  ghost predicate NoTwins(env: Env, files: Files) {
    && (forall p :: p in files ==> UniqueIds(RecordsAt(env, files, p)))
    && (forall f :: f in FolderPaths(Included(env, files)) ==> NormalizeRelPath(f) == f)
  }

  lemma {:induction false} OnceEach(records: seq<Record>, r: Record)
    requires UniqueIds(records)
    ensures multiset(records)[r] <= 1
  {
    if records != [] {
      assert records == [records[0]] + records[1..];
      OnceEach(records[1..], r);
      assert forall j :: 0 < j < |records| ==> records[j] != records[0];
    }
  }

  lemma {:induction false} TwiceAt(records: seq<Record>, i: nat, j: nat)
    requires i < j < |records| && records[i] == records[j]
    ensures multiset(records)[records[i]] >= 2
  {
    var a, b := records[..j], records[j..];
    assert records == a + b;
    assert a[i] in a && b[0] in b;
  }

  /** Ids stay unique in any order of the records. */
  lemma {:induction false} UniqueInAnyOrder(a: seq<Record>, b: seq<Record>)
    requires UniqueIds(a) && multiset(a) == multiset(b)
    ensures UniqueIds(b)
  {
    SameElements(a, b);
    forall i, j | 0 <= i < j < |b| ensures b[i].id != b[j].id {
      OnceEach(a, b[i]);
      if b[i] == b[j] { TwiceAt(b, i, j); }
      assert b[i] in b && b[j] in b;
      var k :| 0 <= k < |a| && a[k] == b[i];
      var l :| 0 <= l < |a| && a[l] == b[j];
      assert k < l || l < k;
    }
  }

  lemma {:induction false} StartsUntrimmed(s: string)
    requires s != "" && !Trim.IsSpace(s[0])
    ensures Trim.TrimSpace(s) != "" && Trim.TrimSpace(s) <= s
  {
    assert Trim.TrimLeft(s) == s;
    RightPartStays(s);
  }

  lemma {:induction false} RightPartStays(s: string)
    requires s != "" && !Trim.IsSpace(s[0])
    ensures Trim.TrimRight(s) != ""
  {
    if Trim.IsSpace(s[|s| - 1]) { RightPartStays(s[..|s| - 1]); }
  }

  /** The folders of clean paths have clean names. */
  lemma {:induction false} FolderIsClean(p: string, i: nat)
    requires CleanPath(p) && i < |p| && p[i] == '/'
    ensures CleanPath(NormalizeRelPath(p[..i]))
  {
    CleanStart(p);
    var f := p[..i];
    assert f != "" && f[0] == p[0];
    StartsUntrimmed(f);
    var t := Trim.TrimSpace(f);
    assert t <= p && t[0] == p[0];
    assert !("./" <= t) && !("/" <= t);
    Trim.TrimmedStays(t);
    assert forall m :: 0 <= m < |t| ==> t[m] == p[m];
  }

  lemma {:induction false} TrimShrinks(s: string)
    ensures |Trim.TrimSpace(s)| <= |s|
  {
    LeftShrinks(s);
  }

  lemma {:induction false} LeftShrinks(s: string)
    ensures |Trim.TrimLeft(s)| <= |s|
  {
    if s != "" && Trim.IsSpace(s[0]) { LeftShrinks(s[1..]); }
  }

  lemma {:induction false} CleanStart(p: string)
    requires CleanPath(p)
    ensures !Trim.IsSpace(p[0]) && !("./" <= p) && !("/" <= p)
  {
    TrimShrinks(p);
    assert Trim.TrimSpace(p) == p;
  }

  // ----- What a file yields -----

  /** The record stands for this extract of the file, text included. */
  predicate IsOf(env: Env, kind: Kind, p: string, body: string, x: Extract, r: Record) {
    && r.kind == kind && r.path == p && r.language == env.language(p)
    && r.name == Trim.TrimSpace(x.name) && r.parent == Trim.TrimSpace(x.parent)
    && r.startLine == x.startLine && r.endLine == x.endLine
    && r.embedText == Trim.TrimSpace(x.text)
    && r.contentHash == env.hash(body) && r.textHash == env.hash(r.embedText)
    && r.textPreview <= r.embedText && |r.textPreview| == (if |r.embedText| > 280 then 280 else |r.embedText|)
  }

  /** The file itself, as an extract. */
  function WholeFile(env: Env, p: string, body: string): Extract {
    Extract(env.baseName(p), env.dirName(p), 1, CountLineFeeds(body) + 1,
            "file " + p + " (" + env.language(p) + ")\n" + env.snippet(body))
  }

  /** What is cut out of a file: the symbols of a Go file, the sections of a Markdown file, and chunks when
      there is no symbol and no section. */
  function ExtractsOf(env: Env, p: string, body: string): (Kind, seq<Extract>) {
    if env.language(p) == "go" && env.symbols(p, body) != [] then (Symbol, env.symbols(p, body))
    else if env.language(p) == "markdown" && env.sections(p, body) != [] then (DocSection, env.sections(p, body))
    else (Chunk, env.chunks(p, body))
  }

  lemma {:induction false} MadeIsOf(env: Env, kind: Kind, p: string, body: string, x: Extract)
    requires CleanPath(p)
    ensures IsOf(env, kind, p, body, x, MakeRecord(env.hash, kind, p, env.language(p), x.name, x.parent, x.startLine,
                                                   x.endLine, env.hash(body), x.text))
  {
  }

  lemma {:induction false} ExtractedAre(env: Env, p: string, body: string)
    ensures var (kind, xs) := ExtractsOf(env, p, body); Extracted(env, p, body) == AsRecords(env, kind, p, body, xs)
  {
  }

  ghost predicate AreOf(env: Env, kind: Kind, p: string, body: string, xs: seq<Extract>, rs: seq<Record>) {
    |rs| == |xs| && forall i :: 0 <= i < |xs| ==> IsOf(env, kind, p, body, xs[i], rs[i])
  }

  lemma {:induction false} AsRecordsAre(env: Env, kind: Kind, p: string, body: string, xs: seq<Extract>)
    requires CleanPath(p)
    ensures AreOf(env, kind, p, body, xs, AsRecords(env, kind, p, body, xs))
  {
    forall i | 0 <= i < |xs| ensures IsOf(env, kind, p, body, xs[i], AsRecords(env, kind, p, body, xs)[i]) {
      MadeIsOf(env, kind, p, body, xs[i]);
    }
  }

  /** A file that is not left out yields its own record, then one for each extract, and nothing else. */
  lemma {:induction false} RecordsOfFile(env: Env, files: Files, p: string)
    requires p in files && CleanPath(p)
    ensures var rs, (kind, xs) := RecordsAt(env, files, p), ExtractsOf(env, p, files[p]);
      if env.skip(p, files[p]) then rs == []
      else rs != [] && IsOf(env, File, p, files[p], WholeFile(env, p, files[p]), rs[0])
           && AreOf(env, kind, p, files[p], xs, rs[1..])
  {
    var (kind, xs) := ExtractsOf(env, p, files[p]);
    ExtractedAre(env, p, files[p]);
    MadeIsOf(env, File, p, files[p], WholeFile(env, p, files[p]));
    AsRecordsAre(env, kind, p, files[p], xs);
    assert ([FileRecord(env, p, files[p])] + Extracted(env, p, files[p]))[1..] == Extracted(env, p, files[p]);
  }

  // ----- Embedding inputs -----

  /** The text that embedRecords sends for a record. */
  function EmbedInput(r: Record): string {
    var text, preview := Trim.TrimSpace(r.embedText), Trim.TrimSpace(r.textPreview);
    if text != "" then text else if preview != "" then preview else Trim.TrimSpace(r.path)
  }

  lemma {:induction false} TrimTwice(s: string)
    ensures Trim.TrimSpace(Trim.TrimSpace(s)) == Trim.TrimSpace(s)
  {
    if Trim.TrimSpace(s) != "" { Trim.TrimmedStays(Trim.TrimSpace(s)); }
  }

  /** A scanned record is embedded by its own text. */
  lemma {:induction false} EmbedsItsText(env: Env, files: Files, p: string, r: Record)
    requires CleanFiles(files) && r in RecordsAt(env, files, p) && r.embedText != ""
    ensures EmbedInput(r) == r.embedText
  {
    var rs := RecordsAt(env, files, p);
    var i :| 0 <= i < |rs| && rs[i] == r;
    TextIsTrimmed(env, files, p, i);
  }

  lemma {:induction false} TextIsTrimmed(env: Env, files: Files, p: string, i: nat)
    requires CleanFiles(files) && i < |RecordsAt(env, files, p)|
    ensures var text := RecordsAt(env, files, p)[i].embedText; Trim.TrimSpace(text) == text
  {
    RecordsOfFile(env, files, p);
    var (kind, xs) := ExtractsOf(env, p, files[p]);
    var x := if i == 0 then WholeFile(env, p, files[p]) else xs[i - 1];
    if i > 0 { assert IsOf(env, kind, p, files[p], xs[i - 1], RecordsAt(env, files, p)[1..][i - 1]); }
    TrimTwice(x.text);
  }

  /** Scanned records with equal ids lie at the same path and are embedded alike. */
  lemma {:induction false} SameIdSameInput(env: Env, p: string, body: string, r: Record, q: string, text: string,
                                           s: Record)
    requires Sound(env.hash) && CleanPath(p) && CleanPath(q) && Scanned(env, p, body, r) && Scanned(env, q, text, s)
    requires r.id == s.id
    ensures p == q && r.kind == s.kind && EmbedInput(r) == EmbedInput(s)
  {
    SameIdParts(env, p, body, r, q, text, s);
    SameWords(env.hash, r, s);
  }

  lemma {:induction false} SameIdParts(env: Env, p: string, body: string, r: Record, q: string, text: string, s: Record)
    requires Sound(env.hash) && CleanPath(p) && CleanPath(q) && Scanned(env, p, body, r) && Scanned(env, q, text, s)
    requires r.id == s.id
    ensures p == q && r.kind == s.kind && r.textHash == s.textHash
  {
    SameId(env.hash, r, s);
  }

  /** Whatever the embedder reads of a record is fixed by its path and its text hash. */
  lemma {:induction false} SameWords(hash: string -> string, r: Record, s: Record)
    requires Sound(hash) && r.path == s.path && r.textHash == s.textHash
    requires r.textHash == hash(r.embedText) && s.textHash == hash(s.embedText)
    requires r.textPreview == (if |r.embedText| > 280 then r.embedText[..280] else r.embedText)
    requires s.textPreview == (if |s.embedText| > 280 then s.embedText[..280] else s.embedText)
    ensures EmbedInput(r) == EmbedInput(s)
  {
    assert r.embedText == s.embedText;
  }
}
