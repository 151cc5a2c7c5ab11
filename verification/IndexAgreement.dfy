/** What it means for a stored index to agree with a scan, and why refreshing part of it is enough
    (internal/semantic/service.go). */
module IndexAgreement {
  import opened Options
  import opened Ordering
  import opened Records

  /** Everything of a record but its text, which the store may drop. */
  function Bare(r: Record): Record {
    r.(textPreview := "", embedText := "")
  }

  /** The vector that belongs to a scanned record, and which records carry a proper id. */
  datatype Rules = Rules(vector: Record -> Vector, known: Record -> bool)

  predicate Known(env: Env, r: Record) {
    Identified(env.hash, r) && CleanPath(r.path) && '\n' !in r.textHash
  }

  function RulesOf(env: Env, model: string): Rules {
    Rules(r => env.embed(model, EmbedInput(r)), r => Known(env, r))
  }

  /** The scanned records of each path. */
  function At(env: Env, files: Files): string -> seq<Record> {
    p => RecordsAt(env, files, p)
  }

  // ----- Agreement -----

  predicate HasId(records: seq<Record>, id: string) {
    exists i :: 0 <= i < |records| && records[i].id == id
  }

  predicate Right(scanned: seq<Record>, rules: Rules, rec: Record, vec: Vector) {
    exists r :: r in scanned && Bare(rec) == Bare(r) && vec == rules.vector(r)
  }

  /** The stored records are sorted; leaving folders aside they are by id exactly the scanned ones,
      and each is a scanned record next to the vector of that record's own text. */
  ghost predicate Agrees(at: string -> seq<Record>, rules: Rules, records: seq<Record>, vectors: seq<Vector>) {
    && |vectors| == |records|
    && SortedBy(records, NotAfter)
    && (forall r :: r in records ==> rules.known(r))
    && (forall i :: 0 <= i < |records| && records[i].kind != Folder ==>
          Right(at(records[i].path), rules, records[i], vectors[i]))
    && (forall p, r :: r in at(p) ==> HasId(records, r.id))
  }

  ghost predicate Lawful(at: string -> seq<Record>, rules: Rules) {
    Placed(at, rules) && Alike(at, rules)
  }

  ghost predicate Placed(at: string -> seq<Record>, rules: Rules) {
    forall p, r :: r in at(p) ==> IsPlaced(rules, p, r)
  }

  predicate IsPlaced(rules: Rules, p: string, r: Record) {
    r.path == p && r.kind != Folder && rules.known(r)
  }

  ghost predicate Alike(at: string -> seq<Record>, rules: Rules) {
    forall p, r, s :: r in at(p) && s in at(p) && r.id == s.id ==> rules.vector(r) == rules.vector(s)
  }

  /** Ids tell kinds and paths apart. */
  ghost predicate Tell(rules: Rules) {
    forall a, b :: rules.known(a) && rules.known(b) && a.id == b.id ==>
      a.kind == b.kind && a.path == b.path
  }

  lemma {:induction false} ScanIsLawful(env: Env, model: string, files: Files)
    requires Sound(env.hash) && CleanFiles(files)
    ensures Lawful(At(env, files), RulesOf(env, model))
  {
    ScanIsPlaced(env, model, files);
    ScanIsAlike(env, model, files);
  }

  lemma {:induction false} ScanIsPlaced(env: Env, model: string, files: Files)
    requires Sound(env.hash) && CleanFiles(files)
    ensures Placed(At(env, files), RulesOf(env, model))
  {
    var at, rules := At(env, files), RulesOf(env, model);
    forall p, r | r in at(p) ensures IsPlaced(rules, p, r) {
      AtIsKnown(env, model, files, p, r);
    }
  }

  lemma {:induction false} ScanIsAlike(env: Env, model: string, files: Files)
    requires Sound(env.hash) && CleanFiles(files)
    ensures Alike(At(env, files), RulesOf(env, model))
  {
    var at, rules := At(env, files), RulesOf(env, model);
    forall p, r, s | r in at(p) && s in at(p) && r.id == s.id ensures rules.vector(r) == rules.vector(s) {
      SameVector(env, model, files, p, r, s);
    }
  }

  lemma {:induction false} AtIsKnown(env: Env, model: string, files: Files, p: string, r: Record)
    requires Sound(env.hash) && CleanFiles(files) && r in At(env, files)(p)
    ensures IsPlaced(RulesOf(env, model), p, r)
  {
    ScannedIsKnown(env, files, p, r);
  }

  lemma {:induction false} SameVector(env: Env, model: string, files: Files, p: string, r: Record, s: Record)
    requires Sound(env.hash) && CleanFiles(files) && r in At(env, files)(p) && s in At(env, files)(p) && r.id == s.id
    ensures RulesOf(env, model).vector(r) == RulesOf(env, model).vector(s)
  {
    SameInput(env, files, p, r, s);
  }

  lemma {:induction false} ScannedIsKnown(env: Env, files: Files, p: string, r: Record)
    requires Sound(env.hash) && CleanFiles(files) && r in RecordsAt(env, files, p)
    ensures p in files && Scanned(env, p, files[p], r) && r.path == p && r.kind != Folder && Known(env, r)
  {
    FileRecordsAreScanned(env, p, files[p]);
  }

  lemma {:induction false} SameInput(env: Env, files: Files, p: string, r: Record, s: Record)
    requires Sound(env.hash) && CleanFiles(files) && r in RecordsAt(env, files, p) && s in RecordsAt(env, files, p)
    requires r.id == s.id
    ensures EmbedInput(r) == EmbedInput(s)
  {
    ScannedIsKnown(env, files, p, r);
    ScannedIsKnown(env, files, p, s);
    SameIdSameInput(env, p, files[p], r, p, files[p], s);
  }

  lemma {:induction false} IdsTell(env: Env, model: string)
    requires Sound(env.hash)
    ensures Tell(RulesOf(env, model))
  {
    var rules := RulesOf(env, model);
    forall a, b | rules.known(a) && rules.known(b) && a.id == b.id
      ensures a.kind == b.kind && a.path == b.path
    {
      SameId(env.hash, a, b);
    }
  }

  /** The folder records of clean files carry clean paths. */
  lemma {:induction false} FolderIsKnown(env: Env, files: Files, r: Record)
    requires Sound(env.hash) && CleanFiles(files) && IsFolderRecord(env, Included(env, files), r)
    ensures r.kind == Folder && Known(env, r)
  {
    var f :| f in FolderPaths(Included(env, files)) && r == FolderRecord(env, f, Included(env, files));
    var p, i :| p in Included(env, files) && 0 <= i < |p| && p[i] == '/' && f == p[..i];
    FolderIsClean(p, i);
  }

  /** A scan whose files and folder names give no twins has unique ids. */
  lemma {:induction false} ScanIsUnique(env: Env, files: Files, scan: seq<Record>)
    requires Sound(env.hash) && CleanFiles(files) && ScanOf(env, files, scan) && NoTwins(env, files)
    ensures UniqueIds(scan)
  {
    forall i, j | 0 <= i < j < |scan| ensures scan[i].id != scan[j].id {
      assert scan[i] in scan && scan[j] in scan;
      if scan[i].id == scan[j].id {
        TwinsAreOne(env, files, scan, scan[i], scan[j]);
        TwiceAt(scan, i, j);
        if scan[i].kind == Folder {
          OneFolder(env, files, scan[i]);
        } else {
          assert scan[i].path in files by { ScannedKinds(env, files, scan[i]); }
          OnceEach(RecordsAt(env, files, scan[i].path), scan[i]);
        }
      }
    }
  }

  lemma {:induction false} ScannedKinds(env: Env, files: Files, r: Record)
    requires Sound(env.hash) && CleanFiles(files)
    requires r in RecordsAt(env, files, r.path) || IsFolderRecord(env, Included(env, files), r)
    ensures Known(env, r) && (r.kind == Folder <==> IsFolderRecord(env, Included(env, files), r))
    ensures r.kind != Folder ==> r.path in files && r in RecordsAt(env, files, r.path)
  {
    if r in RecordsAt(env, files, r.path) { ScannedIsKnown(env, files, r.path, r); }
    if IsFolderRecord(env, Included(env, files), r) { FolderIsKnown(env, files, r); }
  }

  lemma {:induction false} FolderTwins(env: Env, files: Files, r: Record, s: Record)
    requires NoTwins(env, files) && r.path == s.path
    requires IsFolderRecord(env, Included(env, files), r) && IsFolderRecord(env, Included(env, files), s)
    ensures r == s
  {
    var paths := Included(env, files);
    var f :| f in FolderPaths(paths) && r == FolderRecord(env, f, paths);
    var g :| g in FolderPaths(paths) && s == FolderRecord(env, g, paths);
    assert f == r.path && s.path == g;
  }

  lemma {:induction false} FileTwins(at: seq<Record>, r: Record, s: Record)
    requires UniqueIds(at) && r in at && s in at && r.id == s.id
    ensures r == s
  {
    var k :| 0 <= k < |at| && at[k] == r;
    var l :| 0 <= l < |at| && at[l] == s;
  }

  lemma {:induction false} TwinsAreOne(env: Env, files: Files, scan: seq<Record>, r: Record, s: Record)
    requires Sound(env.hash) && CleanFiles(files) && ScanOf(env, files, scan) && NoTwins(env, files)
    requires r in scan && s in scan && r.id == s.id
    ensures r == s
  {
    ScannedKinds(env, files, r);
    ScannedKinds(env, files, s);
    KnownTell(env, r, s);
    if r.kind == Folder {
      FolderTwins(env, files, r, s);
    } else {
      FileTwins(RecordsAt(env, files, r.path), r, s);
    }
  }

  lemma {:induction false} KnownTell(env: Env, r: Record, s: Record)
    requires Sound(env.hash) && Known(env, r) && Known(env, s) && r.id == s.id
    ensures r.kind == s.kind && r.path == s.path
  {
    SameId(env.hash, r, s);
  }

  lemma {:induction false} OneFolder(env: Env, files: Files, r: Record)
    requires NoTwins(env, files)
    ensures |FoldersOf(env, Included(env, files), r)| <= 1
  {
    var all := FoldersOf(env, Included(env, files), r);
    forall f | f in all ensures f == r.path {}
    assert all <= {r.path};
    if all != {} { assert all == {r.path}; }
  }

  // ----- File hashes -----

  /** The content hash of each indexed file. */
  function Stamp(env: Env, files: Files, p: string): Option<string> {
    if p in files && !env.skip(p, files[p]) then Some(env.hash(files[p])) else None
  }

  predicate IsFileHash(records: seq<Record>, p: string, h: string) {
    exists i :: 0 <= i < |records| && records[i].kind == File && records[i].path == p && records[i].contentHash == h
  }

  /** What fileHashesByPath returns for the records. */
  ghost predicate HashesOf(records: seq<Record>, m: map<string, string>) {
    && (forall p :: p in m ==> IsFileHash(records, p, m[p]))
    && (forall i :: 0 <= i < |records| && records[i].kind == File && records[i].path != ""
                    && records[i].contentHash != ""
          ==> records[i].path in m)
  }

  ghost predicate Stamped(at: string -> seq<Record>, stamp: string -> Option<string>) {
    && (forall p :: stamp(p).Some? ==> p != "" && stamp(p).value != "" && exists r :: r in at(p) && r.kind == File)
    && (forall p, r :: r in at(p) && r.kind == File ==> stamp(p) == Some(r.contentHash))
  }

  lemma {:induction false} ScanIsStamped(env: Env, files: Files)
    requires Sound(env.hash) && CleanFiles(files)
    ensures Stamped(At(env, files), p => Stamp(env, files, p))
  {
    var at, stamp := At(env, files), p => Stamp(env, files, p);
    forall p | stamp(p).Some? ensures p != "" && stamp(p).value != "" && exists r :: r in at(p) && r.kind == File {
      StampedFile(env, files, p);
    }
    forall p, r | r in at(p) && r.kind == File ensures stamp(p) == Some(r.contentHash) {
      FileIsStamped(env, files, p, r);
    }
  }

  lemma {:induction false} StampedFile(env: Env, files: Files, p: string)
    requires Sound(env.hash) && CleanFiles(files) && Stamp(env, files, p).Some?
    ensures p != "" && Stamp(env, files, p).value != "" && exists r :: r in At(env, files)(p) && r.kind == File
  {
    assert FileRecord(env, p, files[p]) in At(env, files)(p);
  }

  lemma {:induction false} FileIsStamped(env: Env, files: Files, p: string, r: Record)
    requires Sound(env.hash) && CleanFiles(files) && r in RecordsAt(env, files, p) && r.kind == File
    ensures Stamp(env, files, p) == Some(r.contentHash)
  {
    FileRecordsAreScanned(env, p, files[p]);
  }

  /** The file hashes read back from an index are those of the files it was made from. */
  lemma {:induction false} StoredHashes(at: string -> seq<Record>, rules: Rules, stamp: string -> Option<string>,
                                        records: seq<Record>, vectors: seq<Vector>, m: map<string, string>)
    requires Agrees(at, rules, records, vectors) && Lawful(at, rules) && Tell(rules) && Stamped(at, stamp)
    requires HashesOf(records, m)
    ensures forall p :: stamp(p) == if p in m then Some(m[p]) else None
  {
    forall p | p in m ensures stamp(p) == Some(m[p]) {
      var i :| 0 <= i < |records| && records[i].kind == File && records[i].path == p && records[i].contentHash == m[p];
      StoredFile(at, rules, stamp, records[i], vectors[i]);
    }
    forall p | stamp(p).Some? ensures p in m {
      var r :| r in at(p) && r.kind == File;
      StoredFileExists(at, rules, stamp, records, vectors, p, r);
    }
  }

  lemma {:induction false} StoredFile(at: string -> seq<Record>, rules: Rules, stamp: string -> Option<string>,
                                      rec: Record, vec: Vector)
    requires Stamped(at, stamp) && rec.kind == File && Right(at(rec.path), rules, rec, vec)
    ensures stamp(rec.path) == Some(rec.contentHash)
  {
    var r :| r in at(rec.path) && Bare(rec) == Bare(r);
    assert r.kind == Bare(r).kind && r.contentHash == Bare(r).contentHash;
  }

  lemma {:induction false} StoredFileExists(at: string -> seq<Record>, rules: Rules, stamp: string -> Option<string>,
                                            records: seq<Record>, vectors: seq<Vector>, p: string, r: Record)
    requires Agrees(at, rules, records, vectors) && Lawful(at, rules) && Tell(rules) && Stamped(at, stamp)
    requires r in at(p) && r.kind == File
    ensures exists i :: 0 <= i < |records| && records[i].kind == File && records[i].path == p != ""
                        && records[i].contentHash != ""
  {
    assert HasId(records, r.id);
    var i :| 0 <= i < |records| && records[i].id == r.id;
    assert records[i] in records;
    assert records[i].kind == File && records[i].path == p;
    StoredFile(at, rules, stamp, records[i], vectors[i]);
  }

  /** The same for the records of a scan. */
  lemma {:induction false} ScannedHashes(at: string -> seq<Record>, stamp: string -> Option<string>,
                                         records: seq<Record>, m: map<string, string>)
    requires Stamped(at, stamp) && HashesOf(records, m)
    requires forall r: Record :: r.kind != Folder ==> (r in records <==> r in at(r.path))
    requires forall p, r :: r in at(p) ==> r.path == p
    ensures forall p :: stamp(p) == if p in m then Some(m[p]) else None
  {
    forall p | p in m ensures stamp(p) == Some(m[p]) {
      var i :| 0 <= i < |records| && records[i].kind == File && records[i].path == p && records[i].contentHash == m[p];
      assert records[i] in records;
    }
    forall p | stamp(p).Some? ensures p in m {
      var r :| r in at(p) && r.kind == File;
      assert r in records;
      var i :| 0 <= i < |records| && records[i] == r;
    }
  }

  function ChangedPaths(before: map<string, string>, after: map<string, string>): set<string> {
    (set p | p in after && (p !in before || before[p] != after[p])) + (set p | p in before && p !in after)
  }

  /** A path whose file hash did not change has the same records in both scans. */
  lemma {:induction false} UnchangedRecords(env: Env, files: Files, files': Files, before: map<string, string>,
                                            after: map<string, string>, p: string)
    requires Sound(env.hash) && p !in ChangedPaths(before, after)
    requires Stamp(env, files, p) == if p in before then Some(before[p]) else None
    requires Stamp(env, files', p) == if p in after then Some(after[p]) else None
    ensures RecordsAt(env, files, p) == RecordsAt(env, files', p)
  {
    assert Stamp(env, files, p) == Stamp(env, files', p);
    if p in files && p in files' && Stamp(env, files, p).Some? {
      assert files[p] == files'[p];
    }
  }

  // ----- One refresh -----

  predicate IsKept(records: seq<Record>, vectors: seq<Vector>, changed: set<string>, id: string, rec: Record,
                   vec: Vector) {
    exists i :: 0 <= i < |records| && i < |vectors| && KeptAt(records, changed, i, id, rec) && vec == vectors[i]
  }

  predicate KeptAt(records: seq<Record>, changed: set<string>, i: nat, id: string, rec: Record)
    requires i < |records|
  {
    records[i].path !in changed && records[i].id == id && records[i] == rec
  }

  /** The records and vectors kept from the old index, by id. */
  ghost predicate Kept(records: seq<Record>, vectors: seq<Vector>, changed: set<string>,
                       recs: map<string, Record>, vecs: map<string, Vector>) {
    && recs.Keys == vecs.Keys
    && (forall id :: id in recs ==> IsKept(records, vectors, changed, id, recs[id], vecs[id]))
    && (forall i :: 0 <= i < |records| && i < |vectors| && records[i].path !in changed ==> records[i].id in recs)
  }

  function Select(records: seq<Record>, changed: set<string>): (s: seq<Record>)
    ensures forall r :: r in s <==> r in records && r.path in changed
  {
    if records == [] then []
    else
      var n := |records| - 1;
      var rest := Select(records[..n], changed);
      assert records == records[..n] + [records[n]];
      if records[n].path in changed then rest + [records[n]] else rest
  }

  lemma {:induction false} SelectUnique(records: seq<Record>, changed: set<string>)
    requires UniqueIds(records)
    ensures UniqueIds(Select(records, changed))
  {
    if records != [] {
      var n := |records| - 1;
      var rest := Select(records[..n], changed);
      SelectUnique(records[..n], changed);
      forall i | 0 <= i < |rest| ensures rest[i].id != records[n].id {
        assert rest[i] in records[..n];
      }
    }
  }

  /** The kept vectors, overwritten by the new ones. */
  ghost predicate Merged(vecs: map<string, Vector>, added: seq<Record>, vectors: seq<Vector>, all: map<string,
                         Vector>) {
    && |vectors| == |added|
    && (forall id :: id in all <==> id in vecs || HasId(added, id))
    && (forall id :: id in all && !HasId(added, id) ==> all[id] == vecs[id])
    && (forall id :: id in all && HasId(added, id) ==>
          exists i :: 0 <= i < |added| && added[i].id == id && all[id] == vectors[i])
  }

  ghost predicate Combined(recs: map<string, Record>, added: seq<Record>, combined: seq<Record>) {
    && SortedBy(combined, NotAfter)
    && (forall r :: r in combined <==> (exists id :: id in recs && recs[id] == r) || r in added)
  }

  datatype Step = Step(records: seq<Record>, vectors: seq<Vector>, changed: set<string>, recs: map<string, Record>,
                       vecs: map<string, Vector>, scan: seq<Record>, added: seq<Record>, newVectors: seq<Vector>,
                       combined: seq<Record>, all: map<string, Vector>)

  /** A refresh of `records` against `scan`, up to the embedding of the new records. */
  ghost predicate Prepared(at: string -> seq<Record>, at': string -> seq<Record>, rules: Rules, s: Step) {
    && Agrees(at, rules, s.records, s.vectors) && Lawful(at', rules) && Tell(rules)
    && (forall p :: p !in s.changed ==> at(p) == at'(p))
    && (forall r :: r in s.scan ==> rules.known(r))
    && (forall r: Record :: r.kind != Folder ==> (r in s.scan <==> r in at'(r.path)))
    && Kept(s.records, s.vectors, s.changed, s.recs, s.vecs)
    && (forall r :: r in s.added <==> r in s.scan && r.path in s.changed)
    && |s.newVectors| == |s.added|
    && (forall i :: 0 <= i < |s.added| ==> s.newVectors[i] == rules.vector(s.added[i]))
  }

  /** All the intermediate results of a refresh. */
  ghost predicate StepOk(at: string -> seq<Record>, at': string -> seq<Record>, rules: Rules, s: Step) {
    && Prepared(at, at', rules, s)
    && Combined(s.recs, s.added, s.combined)
    && Merged(s.vecs, s.added, s.newVectors, s.all)
  }

  /** The index holds the first records of the scan, each with its own vector. */
  ghost predicate CutOf(env: Env, model: string, scan: seq<Record>, records: seq<Record>, vectors: seq<Vector>) {
    && |vectors| == |records| <= |scan|
    && (forall i :: 0 <= i < |records| ==> Bare(records[i]) == Bare(scan[i]))
    && (forall i :: 0 <= i < |records| ==> vectors[i] == env.embed(model, EmbedInput(scan[i])))
  }

  /** The records that a build keeps of a scan. */
  function Limited(maxRecords: int, found: nat): nat {
    if maxRecords > 0 && found > maxRecords then maxRecords else found
  }

  /** The index holds the first records of a scan of the files, up to the limit. */
  ghost predicate FirstOf(env: Env, model: string, maxRecords: int, files: Files, records: seq<Record>,
                          vectors: seq<Vector>) {
    exists scan :: ScanOf(env, files, scan) && CutOf(env, model, scan, records, vectors)
                   && |records| == Limited(maxRecords, |scan|)
  }

  /** The paths whose file hashes differ between an index and a scan. */
  ghost predicate ChangedBetween(records: seq<Record>, scan: seq<Record>, changed: set<string>) {
    exists before, after :: HashesOf(records, before) && HashesOf(scan, after) && changed == ChangedPaths(before, after)
  }

  /** What a refresh does to an index, whatever the index holds. */
  ghost predicate Refreshes(env: Env, model: string, files: Files, s: Step) {
    && ScanOf(env, files, s.scan)
    && ChangedBetween(s.records, s.scan, s.changed)
    && Kept(s.records, s.vectors, s.changed, s.recs, s.vecs)
    && s.added == Select(s.scan, s.changed)
    && |s.newVectors| == |s.added|
    && (forall i :: 0 <= i < |s.added| ==> s.newVectors[i] == env.embed(model, EmbedInput(s.added[i])))
    && Combined(s.recs, s.added, s.combined)
    && Merged(s.vecs, s.added, s.newVectors, s.all)
  }

  /** The vectors are those of the combined records. */
  ghost predicate Aligned(s: Step, vectors: seq<Vector>) {
    |vectors| == |s.combined| &&
    forall i :: 0 <= i < |vectors| ==> s.combined[i].id in s.all && vectors[i] == s.all[s.combined[i].id]
  }

  lemma {:induction false} KeptIsOld(at: string -> seq<Record>, at': string -> seq<Record>, rules: Rules, s: Step,
                                     id: string)
    requires StepOk(at, at', rules, s) && id in s.recs
    ensures s.recs[id].id == id && rules.known(s.recs[id]) && s.recs[id].path !in s.changed
    ensures s.recs[id].kind != Folder ==> Right(at'(s.recs[id].path), rules, s.recs[id], s.vecs[id])
  {
    var i :| 0 <= i < |s.records| && i < |s.vectors| && KeptAt(s.records, s.changed, i, id, s.recs[id])
             && s.vecs[id] == s.vectors[i];
    assert s.records[i] in s.records;
  }

  /** Every combined record has its own vector. */
  lemma {:induction false} CombinedIsRight(at: string -> seq<Record>, at': string -> seq<Record>, rules: Rules,
                                           s: Step, r: Record)
    requires StepOk(at, at', rules, s) && r in s.combined
    ensures r.id in s.all && rules.known(r)
    ensures r.kind != Folder ==> Right(at'(r.path), rules, r, s.all[r.id])
  {
    if r in s.added {
      AddedIsRight(at, at', rules, s, r);
    } else {
      var id :| id in s.recs && s.recs[id] == r;
      KeptIsOld(at, at', rules, s, id);
      if r.kind != Folder { NotAdded(at, at', rules, s, r); }
    }
  }

  /** A kept record's id is never that of a new record. */
  lemma {:induction false} NotAdded(at: string -> seq<Record>, at': string -> seq<Record>, rules: Rules, s: Step,
                                    r: Record)
    requires StepOk(at, at', rules, s) && rules.known(r) && r.kind != Folder && r.path !in s.changed
    ensures !HasId(s.added, r.id)
  {
    forall j | 0 <= j < |s.added| ensures s.added[j].id != r.id {
      assert s.added[j] in s.added;
    }
  }

  lemma {:induction false} AddedIsRight(at: string -> seq<Record>, at': string -> seq<Record>, rules: Rules, s: Step,
                                        r: Record)
    requires StepOk(at, at', rules, s) && r in s.added
    ensures r.id in s.all && rules.known(r)
    ensures r.kind != Folder ==> Right(at'(r.path), rules, r, s.all[r.id])
  {
    var k :| 0 <= k < |s.added| && s.added[k] == r;
    assert HasId(s.added, r.id);
    var j :| 0 <= j < |s.added| && s.added[j].id == r.id && s.all[r.id] == s.newVectors[j];
    assert s.added[j] in s.added;
    if r.kind != Folder {
      assert s.added[j].kind == r.kind && s.added[j].path == r.path;
      assert r in at'(r.path) && s.added[j] in at'(r.path);
    }
  }

  /** Every scanned record is among the combined ones. */
  lemma {:induction false} CombinedCovers(at: string -> seq<Record>, at': string -> seq<Record>, rules: Rules, s: Step,
                                          p: string, r: Record)
    requires StepOk(at, at', rules, s) && r in at'(p)
    ensures HasId(s.combined, r.id)
  {
    assert r.path == p && r.kind != Folder;
    if p in s.changed {
      assert r in s.scan && r in s.added && r in s.combined;
      var k :| 0 <= k < |s.combined| && s.combined[k] == r;
    } else {
      assert r in at(p) && HasId(s.records, r.id);
      var i :| 0 <= i < |s.records| && s.records[i].id == r.id;
      assert s.records[i] in s.records && s.records[i].path == p;
      KeptIsOld(at, at', rules, s, r.id);
      assert s.recs[r.id] in s.combined;
      var k :| 0 <= k < |s.combined| && s.combined[k] == s.recs[r.id];
    }
  }

  /** Refreshing keeps the agreement: the index that agreed with the old scan now agrees with the new one. */
  lemma {:induction false} RefreshAgrees(at: string -> seq<Record>, at': string -> seq<Record>, rules: Rules, s: Step,
                                         vectors: seq<Vector>)
    requires StepOk(at, at', rules, s) && |vectors| == |s.combined|
    requires forall i :: 0 <= i < |vectors| ==> s.combined[i].id in s.all && vectors[i] == s.all[s.combined[i].id]
    ensures Agrees(at', rules, s.combined, vectors)
  {
    forall r | r in s.combined ensures rules.known(r) { CombinedIsRight(at, at', rules, s, r); }
    forall i | 0 <= i < |s.combined| && s.combined[i].kind != Folder
      ensures Right(at'(s.combined[i].path), rules, s.combined[i], vectors[i])
    {
      CombinedIsRight(at, at', rules, s, s.combined[i]);
    }
    forall p, r | r in at'(p) ensures HasId(s.combined, r.id) { CombinedCovers(at, at', rules, s, p, r); }
  }

  // ----- What agreement means for a reader -----

  ghost predicate Stores(records: seq<Record>, vectors: seq<Vector>, id: string, vec: Vector)
    requires |vectors| == |records|
  {
    exists i :: 0 <= i < |records| && records[i].kind != Folder && records[i].id == id && vectors[i] == vec
  }

  /** Leaving folders aside, an index that agrees with a scan stores exactly the scanned ids, each with
      the vector of the scanned record; so two such indexes store the same. */
  lemma {:induction false} AgreementIsExact(at: string -> seq<Record>, rules: Rules, records: seq<Record>,
                                            vectors: seq<Vector>, id: string, vec: Vector)
    requires Agrees(at, rules, records, vectors) && Lawful(at, rules) && Tell(rules)
    ensures Stores(records, vectors, id, vec) <==> exists p, r :: r in at(p) && r.id == id && rules.vector(r) == vec
  {
    if Stores(records, vectors, id, vec) {
      var i :| 0 <= i < |records| && records[i].kind != Folder && records[i].id == id && vectors[i] == vec;
      var r :| r in at(records[i].path) && Bare(records[i]) == Bare(r) && vectors[i] == rules.vector(r);
      assert r.id == Bare(r).id;
    }
    if exists p, r :: r in at(p) && r.id == id && rules.vector(r) == vec {
      var p, r :| r in at(p) && r.id == id && rules.vector(r) == vec;
      ScannedIsStored(at, rules, records, vectors, p, r);
    }
  }

  lemma {:induction false} ScannedIsStored(at: string -> seq<Record>, rules: Rules, records: seq<Record>,
                                           vectors: seq<Vector>, p: string, r: Record)
    requires Agrees(at, rules, records, vectors) && Lawful(at, rules) && Tell(rules) && r in at(p)
    ensures Stores(records, vectors, r.id, rules.vector(r))
  {
    assert IsPlaced(rules, p, r);
    assert HasId(records, r.id);
    var i :| 0 <= i < |records| && records[i].id == r.id;
    assert records[i] in records;
    assert records[i].kind == r.kind && records[i].path == p;
    var s :| s in at(p) && Bare(records[i]) == Bare(s) && vectors[i] == rules.vector(s);
    assert s.id == Bare(s).id;
  }

  /** The record is this scanned one, whatever became of its texts. */
  predicate IsStoredFor(rec: Record, r: Record) {
    && rec.id == r.id && rec.kind == r.kind && rec.path == r.path && rec.language == r.language
    && rec.name == r.name && rec.parent == r.parent && rec.startLine == r.startLine && rec.endLine == r.endLine
    && rec.contentHash == r.contentHash && rec.textHash == r.textHash
  }

  /** In an index that agrees with files every record but a folder's is one that its file yields, next to the
      vector of that record's text. */
  lemma {:induction false} StoredIsScanned(env: Env, model: string, files: Files, records: seq<Record>,
                                           vectors: seq<Vector>, i: nat) returns (r: Record)
    requires Sound(env.hash) && CleanFiles(files) && Agrees(At(env, files), RulesOf(env, model), records, vectors)
    requires i < |records| && records[i].kind != Folder
    ensures r in RecordsAt(env, files, records[i].path) && IsStoredFor(records[i], r)
    ensures r.embedText != "" ==> vectors[i] == env.embed(model, r.embedText)
  {
    var rules := RulesOf(env, model);
    assert Right(At(env, files)(records[i].path), rules, records[i], vectors[i]);
    r :| r in At(env, files)(records[i].path) && Bare(records[i]) == Bare(r) && vectors[i] == rules.vector(r);
    assert Bare(r).id == r.id && Bare(r).path == r.path && Bare(r).textHash == r.textHash;
    AtIsKnown(env, model, files, records[i].path, r);
    if r.embedText != "" { EmbedsItsText(env, files, r.path, r); }
  }

  /** And every record that a file yields is stored, with the vector of its own text. */
  lemma {:induction false} ScannedHasVector(env: Env, model: string, files: Files, records: seq<Record>,
                                            vectors: seq<Vector>, p: string, r: Record)
    requires Sound(env.hash) && CleanFiles(files) && Agrees(At(env, files), RulesOf(env, model), records, vectors)
    requires r in RecordsAt(env, files, p) && r.embedText != ""
    ensures Stores(records, vectors, r.id, env.embed(model, r.embedText))
    ensures forall vec :: Stores(records, vectors, r.id, vec) ==> vec == env.embed(model, r.embedText)
  {
    var at, rules := At(env, files), RulesOf(env, model);
    ScanIsLawful(env, model, files);
    IdsTell(env, model);
    EmbedsItsText(env, files, p, r);
    assert r in at(p) && rules.vector(r) == env.embed(model, r.embedText);
    AgreementIsExact(at, rules, records, vectors, r.id, env.embed(model, r.embedText));
    forall vec | Stores(records, vectors, r.id, vec) ensures vec == env.embed(model, r.embedText) {
      AgreementIsExact(at, rules, records, vectors, r.id, vec);
      var q, s :| s in at(q) && s.id == r.id && rules.vector(s) == vec;
      AtIsKnown(env, model, files, p, r);
      AtIsKnown(env, model, files, q, s);
      assert p == q;
      SameVector(env, model, files, p, r, s);
    }
  }
}
