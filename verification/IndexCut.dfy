/** What becomes of an index that a build has cut at the record limit (internal/semantic/service.go). */
module IndexCut {
  import opened Options
  import opened Ordering
  import opened Records
  import opened IndexAgreement
  import opened IndexRefresh

  predicate FileIn(records: seq<Record>, p: string) {
    exists i :: 0 <= i < |records| && records[i].kind == File && records[i].path == p
  }

  /** The path has the same file hash, or none, among both files. */
  predicate SameStamp(env: Env, files: Files, later: Files, p: string) {
    Stamp(env, files, p) == Stamp(env, later, p)
  }

  /** Of every unchanged file whose file record is there, all records are there. */
  ghost predicate Whole(env: Env, files: Files, later: Files, records: seq<Record>) {
    forall p, r :: FileIn(records, p) && SameStamp(env, files, later, p) && r in RecordsAt(env, files, p)
                   ==> HasId(records, r.id)
  }

  // ----- The order of a scan -----

  /** Folders aside, the list holds what the files hold, in order. */
  ghost predicate HoldsFiles(env: Env, files: Files, scan: seq<Record>) {
    && SortedBy(scan, NotAfter)
    && forall r: Record :: r.kind != Folder ==> (r in scan <==> r in RecordsAt(env, files, r.path))
  }

  lemma {:induction false} ScanHoldsFiles(env: Env, files: Files, scan: seq<Record>)
    requires Sound(env.hash) && CleanFiles(files) && ScanOf(env, files, scan)
    ensures HoldsFiles(env, files, scan)
  {
    ScanParts(env, "", files, scan);
    forall r: Record | r.kind != Folder ensures r in scan <==> r in RecordsAt(env, files, r.path) {
      assert At(env, files)(r.path) == RecordsAt(env, files, r.path);
    }
  }

  lemma {:induction false} InOrder(scan: seq<Record>, j: nat, k: nat)
    requires SortedBy(scan, NotAfter) && j < |scan| && k < |scan|
    requires scan[j].path == scan[k].path && KindRank(scan[j].kind) < KindRank(scan[k].kind)
    ensures j < k
  {
    assert Less(scan[j], scan[k]);
  }

  lemma {:induction false} PathBetween(a: Record, b: Record, c: Record)
    requires NotAfter(a, b) && NotAfter(b, c) && a.path == c.path
    ensures b.path == a.path && KindRank(a.kind) <= KindRank(b.kind) <= KindRank(c.kind)
  {
    BeforeSeparates(a.path, b.path);
  }

  lemma {:induction false} SamePlace(records: seq<Record>, i: nat, j: nat)
    requires UniqueIds(records) && i < |records| && j < |records| && records[i].id == records[j].id
    ensures i == j
  {
  }

  lemma {:induction false} FileRecordPlace(env: Env, files: Files, p: string, r: Record)
    requires r in RecordsAt(env, files, p)
    ensures p in files && FileRecord(env, p, files[p]) in RecordsAt(env, files, p)
    ensures FileRecord(env, p, files[p]).kind == File && FileRecord(env, p, files[p]).path == NormalizeRelPath(p)
  {
    var f := FileRecord(env, p, files[p]);
    assert RecordsAt(env, files, p)[0] == f;
  }

  lemma {:induction false} FileRecordFound(env: Env, files: Files, scan: seq<Record>, r: Record) returns (f: Record)
    requires CleanFiles(files) && HoldsFiles(env, files, scan) && r in scan && r.kind != Folder
    ensures f in scan && f.kind == File && f.path == r.path
  {
    f := FileRecord(env, r.path, files[r.path]);
    FileRecordPlace(env, files, r.path, r);
  }

  /** A file record comes before everything else that was found in its file. */
  lemma {:induction false} FileComesFirst(env: Env, files: Files, scan: seq<Record>, k: nat) returns (j: nat)
    requires CleanFiles(files) && HoldsFiles(env, files, scan)
    requires k < |scan| && scan[k].kind != File && scan[k].kind != Folder
    ensures j < k && scan[j].kind == File && scan[j].path == scan[k].path
  {
    var f := FileRecordFound(env, files, scan, scan[k]);
    j :| 0 <= j < |scan| && scan[j] == f;
    InOrder(scan, j, k);
  }

  /** A beginning of the scan that holds anything of a file holds its file record. */
  lemma {:induction false} FileRecordIn(env: Env, files: Files, scan: seq<Record>, cut: seq<Record>, r: Record)
    requires CleanFiles(files) && HoldsFiles(env, files, scan) && cut <= scan && r in cut && r.kind != Folder
    ensures FileIn(cut, r.path)
  {
    var k :| 0 <= k < |cut| && cut[k] == r;
    assert scan[k] == r;
    if r.kind != File {
      var j := FileComesFirst(env, files, scan, k);
      assert cut[j] == scan[j];
    }
  }

  // ----- Records that differ in their texts only -----

  lemma {:induction false} SameBare(records: seq<Record>, cut: seq<Record>)
    requires |records| == |cut| && forall i :: 0 <= i < |records| ==> Bare(records[i]) == Bare(cut[i])
    ensures forall id :: HasId(records, id) <==> HasId(cut, id)
    ensures forall p :: FileIn(records, p) <==> FileIn(cut, p)
  {
    forall i | 0 <= i < |records|
      ensures records[i].id == cut[i].id && records[i].kind == cut[i].kind && records[i].path == cut[i].path
    {
      assert Bare(records[i]).id == Bare(cut[i]).id;
    }
    forall id ensures HasId(records, id) <==> HasId(cut, id) {
      if i :| 0 <= i < |records| && records[i].id == id { assert cut[i].id == id; }
      if i :| 0 <= i < |cut| && cut[i].id == id { assert records[i].id == id; }
    }
    forall p ensures FileIn(records, p) <==> FileIn(cut, p) {
      if i :| 0 <= i < |records| && records[i].kind == File && records[i].path == p { assert cut[i].path == p; }
      if i :| 0 <= i < |cut| && cut[i].kind == File && cut[i].path == p { assert records[i].path == p; }
    }
  }

  lemma {:induction false} SortedPart(records: seq<Record>, scan: seq<Record>)
    requires SortedBy(scan, NotAfter) && |records| <= |scan|
    requires forall i :: 0 <= i < |records| ==> Bare(records[i]) == Bare(scan[i])
    ensures SortedBy(records, NotAfter)
  {
    forall i, j | 0 <= i < j < |records| ensures NotAfter(records[i], records[j]) {
      assert NotAfter(scan[i], scan[j]);
      assert NotAfter(Bare(records[i]), Bare(records[j])) == NotAfter(records[i], records[j]);
      assert NotAfter(Bare(scan[i]), Bare(scan[j])) == NotAfter(scan[i], scan[j]);
    }
  }

  lemma {:induction false} BareIsKnown(env: Env, r: Record, q: Record)
    requires Bare(r) == Bare(q) && Known(env, q)
    ensures Known(env, r)
  {
    assert Bare(r).path == Bare(q).path && Bare(r).id == Bare(q).id && Bare(r).textHash == Bare(q).textHash;
    assert Bare(r).kind == Bare(q).kind && Bare(r).name == Bare(q).name;
    assert Bare(r).startLine == Bare(q).startLine && Bare(r).endLine == Bare(q).endLine;
  }

  // ----- What the cut index holds of each file -----

  /** The records of a path, folders aside. */
  function PartAt(cut: seq<Record>, p: string): (part: seq<Record>)
    ensures forall r :: r in part <==> r in cut && r.path == p && r.kind != Folder
  {
    if cut == [] then []
    else
      var n := |cut| - 1;
      assert cut == cut[..n] + [cut[n]];
      PartAt(cut[..n], p) + (if cut[n].path == p && cut[n].kind != Folder then [cut[n]] else [])
  }

  /** Unchanged files whose file record is in the index count as whole, of others only the part that is
      there. */
  function HeldAt(env: Env, files: Files, later: Files, cut: seq<Record>): string -> seq<Record> {
    p => if FileIn(cut, p) && SameStamp(env, files, later, p) then RecordsAt(env, files, p) else PartAt(cut, p)
  }

  /** A scanned record is held at its own path. */
  lemma {:induction false} HeldHasScanned(env: Env, files: Files, later: Files, scan: seq<Record>, cut: seq<Record>,
                                          r: Record)
    requires HoldsFiles(env, files, scan) && cut <= scan && r in cut && r.kind != Folder
    ensures r in HeldAt(env, files, later, cut)(r.path)
  {
    var i :| 0 <= i < |cut| && cut[i] == r;
    assert scan[i] == r && r in scan;
  }

  lemma {:induction false} HeldIsStored(env: Env, files: Files, later: Files, records: seq<Record>, cut: seq<Record>,
                                        p: string, r: Record)
    requires |records| == |cut| && forall i :: 0 <= i < |records| ==> Bare(records[i]) == Bare(cut[i])
    requires Whole(env, files, later, records) && r in HeldAt(env, files, later, cut)(p)
    ensures HasId(records, r.id)
  {
    SameBare(records, cut);
    if !(FileIn(cut, p) && SameStamp(env, files, later, p)) {
      var i :| 0 <= i < |cut| && cut[i] == r;
      assert cut[i].id == r.id && HasId(cut, r.id);
    }
  }

  lemma {:induction false} CutIsRight(env: Env, model: string, files: Files, later: Files, scan: seq<Record>,
                                      cut: seq<Record>, records: seq<Record>, vectors: seq<Vector>, i: nat)
    requires HoldsFiles(env, files, scan) && CutOf(env, model, scan, records, vectors) && cut == scan[..|records|]
    requires i < |records| && records[i].kind != Folder
    ensures Right(HeldAt(env, files, later, cut)(records[i].path), RulesOf(env, model), records[i], vectors[i])
  {
    assert Bare(records[i]).kind == Bare(scan[i]).kind && Bare(records[i]).path == Bare(scan[i]).path;
    assert cut[i] == scan[i] && scan[i] in cut;
    HeldHasScanned(env, files, later, scan, cut, scan[i]);
  }

  /** A cut index whose unchanged files are whole agrees with what it holds of each file. */
  lemma {:induction false} CutIsHeld(env: Env, model: string, files: Files, later: Files, scan: seq<Record>,
                                     cut: seq<Record>, records: seq<Record>, vectors: seq<Vector>)
    requires Sound(env.hash) && CleanFiles(files) && ScanOf(env, files, scan)
    requires CutOf(env, model, scan, records, vectors) && cut == scan[..|records|] && Whole(env, files, later, records)
    ensures Agrees(HeldAt(env, files, later, cut), RulesOf(env, model), records, vectors)
  {
    var at, rules := HeldAt(env, files, later, cut), RulesOf(env, model);
    SortedPart(records, scan);
    ScanHoldsFiles(env, files, scan);
    ScanKnown(env, files, scan);
    forall i | 0 <= i < |records|
      ensures Known(env, records[i])
      ensures records[i].kind != Folder ==> Right(at(records[i].path), rules, records[i], vectors[i])
    {
      assert scan[i] in scan;
      BareIsKnown(env, records[i], scan[i]);
      if records[i].kind != Folder { CutIsRight(env, model, files, later, scan, cut, records, vectors, i); }
    }
    forall p, r | r in at(p) ensures HasId(records, r.id) { HeldIsStored(env, files, later, records, cut, p, r); }
  }

  // ----- Which paths the refresh takes for unchanged -----

  lemma {:induction false} FileHash(env: Env, files: Files, scan: seq<Record>, r: Record, q: Record)
    requires Sound(env.hash) && CleanFiles(files) && ScanOf(env, files, scan)
    requires q in scan && q.kind == File && Bare(r) == Bare(q)
    ensures r.kind == File && r.path == q.path != "" && r.contentHash != ""
    ensures Stamp(env, files, r.path) == Some(r.contentHash)
  {
    assert Bare(r).kind == Bare(q).kind && Bare(r).path == Bare(q).path && Bare(r).contentHash == Bare(q).contentHash;
    var stamp := p => Stamp(env, files, p);
    ScanIsStamped(env, files);
    assert q in At(env, files)(q.path);
    assert stamp(q.path) == Some(q.contentHash);
  }

  /** Every file record of the index carries the hash of its file. */
  lemma {:induction false} FileStamp(env: Env, files: Files, scan: seq<Record>, records: seq<Record>, i: nat)
    requires Sound(env.hash) && CleanFiles(files) && ScanOf(env, files, scan)
    requires i < |records| <= |scan| && Bare(records[i]) == Bare(scan[i]) && records[i].kind == File
    ensures records[i].path != "" && records[i].contentHash != ""
    ensures Stamp(env, files, records[i].path) == Some(records[i].contentHash)
  {
    assert scan[i] in scan && Bare(records[i]).kind == Bare(scan[i]).kind;
    FileHash(env, files, scan, records[i], scan[i]);
  }

  lemma {:induction false} HashIsStamp(env: Env, files: Files, scan: seq<Record>, records: seq<Record>,
                                       before: map<string, string>, p: string)
    requires Sound(env.hash) && CleanFiles(files) && ScanOf(env, files, scan)
    requires |records| <= |scan| && forall i :: 0 <= i < |records| ==> Bare(records[i]) == Bare(scan[i])
    requires HashesOf(records, before) && FileIn(records, p)
    ensures p in before && Stamp(env, files, p) == Some(before[p])
  {
    var i :| 0 <= i < |records| && records[i].kind == File && records[i].path == p;
    FileStamp(env, files, scan, records, i);
    assert IsFileHash(records, p, before[p]);
    var j :| 0 <= j < |records| && records[j].kind == File && records[j].path == p
             && records[j].contentHash == before[p];
    FileStamp(env, files, scan, records, j);
  }

  /** A path with a file record in the index is taken for unchanged exactly when its file is. */
  lemma {:induction false} ChangedIfStamp(env: Env, model: string, files: Files, later: Files, scan: seq<Record>,
                                          records: seq<Record>, again: seq<Record>, changed: set<string>, p: string)
    requires Sound(env.hash) && CleanFiles(files) && CleanFiles(later)
    requires ScanOf(env, files, scan) && ScanOf(env, later, again)
    requires |records| <= |scan| && forall i :: 0 <= i < |records| ==> Bare(records[i]) == Bare(scan[i])
    requires ChangedBetween(records, again, changed) && FileIn(records, p)
    ensures p !in changed <==> SameStamp(env, files, later, p)
  {
    var before, after :|
      HashesOf(records, before) && HashesOf(again, after) && changed == ChangedPaths(before, after);
    HashIsStamp(env, files, scan, records, before, p);
    ChangedByStamp(env, model, files, later, again, before, after, p);
  }

  lemma {:induction false} ChangedByStamp(env: Env, model: string, files: Files, later: Files, again: seq<Record>,
                                          before: map<string, string>, after: map<string, string>, p: string)
    requires Sound(env.hash) && CleanFiles(later) && ScanOf(env, later, again) && HashesOf(again, after)
    requires p in before && Stamp(env, files, p) == Some(before[p])
    ensures p !in ChangedPaths(before, after) <==> SameStamp(env, files, later, p)
  {
    StampOfScan(env, model, later, again, after, p);
  }

  lemma {:induction false} StampOfScan(env: Env, model: string, files: Files, scan: seq<Record>, m: map<string, string>,
                                       p: string)
    requires Sound(env.hash) && CleanFiles(files) && ScanOf(env, files, scan) && HashesOf(scan, m)
    ensures Stamp(env, files, p) == if p in m then Some(m[p]) else None
  {
    ScanHashes(env, model, files, scan, m);
  }

  lemma {:induction false} SameRecords(env: Env, files: Files, later: Files, p: string)
    requires Sound(env.hash) && SameStamp(env, files, later, p)
    ensures RecordsAt(env, files, p) == RecordsAt(env, later, p)
  {
    if Stamp(env, files, p).Some? {
      assert files[p] == later[p];
    }
  }

  lemma {:induction false} SomeElement(records: seq<Record>) returns (r: Record)
    requires records != []
    ensures r in records
  {
    r := records[0];
  }

  lemma {:induction false} NothingHeld(env: Env, files: Files, scan: seq<Record>, cut: seq<Record>, p: string)
    requires CleanFiles(files) && HoldsFiles(env, files, scan) && cut <= scan && !FileIn(cut, p)
    ensures PartAt(cut, p) == []
  {
    forall r | r in cut && r.kind != Folder ensures r.path != p { FileRecordIn(env, files, scan, cut, r); }
    if PartAt(cut, p) != [] { var _ := SomeElement(PartAt(cut, p)); }
  }

  /** A path without a file record in the index is changed, unless the new files hold nothing there. */
  lemma {:induction false} NothingNew(env: Env, model: string, later: Files, records: seq<Record>, again: seq<Record>,
                                      changed: set<string>, p: string)
    requires Sound(env.hash) && CleanFiles(later) && ScanOf(env, later, again)
    requires ChangedBetween(records, again, changed) && p !in changed && !FileIn(records, p)
    ensures RecordsAt(env, later, p) == []
  {
    var before, after :|
      HashesOf(records, before) && HashesOf(again, after) && changed == ChangedPaths(before, after);
    assert p !in before;
    StampOfScan(env, model, later, again, after, p);
  }

  lemma {:induction false} HeldUnchanged(env: Env, model: string, files: Files, later: Files, scan: seq<Record>,
                                         cut: seq<Record>, s: Step, p: string)
    requires Sound(env.hash) && CleanFiles(files) && CleanFiles(later) && ScanOf(env, files, scan)
    requires CutOf(env, model, scan, s.records, s.vectors) && cut == scan[..|s.records|]
    requires Refreshes(env, model, later, s) && p !in s.changed
    ensures HeldAt(env, files, later, cut)(p) == RecordsAt(env, later, p)
  {
    SameBare(s.records, cut);
    if FileIn(cut, p) {
      ChangedIfStamp(env, model, files, later, scan, s.records, s.scan, s.changed, p);
      SameRecords(env, files, later, p);
    } else {
      ScanHoldsFiles(env, files, scan);
      NothingHeld(env, files, scan, cut, p);
      NothingNew(env, model, later, s.records, s.scan, s.changed, p);
    }
  }

  // ----- The theorem -----

  lemma {:induction false} PreparedFrom(env: Env, model: string, later: Files, at: string -> seq<Record>, s: Step)
    requires Sound(env.hash) && CleanFiles(later) && Refreshes(env, model, later, s)
    requires Agrees(at, RulesOf(env, model), s.records, s.vectors)
    requires forall p :: p !in s.changed ==> at(p) == At(env, later)(p)
    ensures Prepared(at, At(env, later), RulesOf(env, model), s)
  {
    ScanIsLawful(env, model, later);
    IdsTell(env, model);
    ScanParts(env, model, later, s.scan);
    var rules := RulesOf(env, model);
    forall i | 0 <= i < |s.added| ensures s.newVectors[i] == rules.vector(s.added[i]) {}
  }

  lemma {:induction false} WholeIsRefreshed(env: Env, model: string, files: Files, later: Files, scan: seq<Record>,
                                            cut: seq<Record>, at: string -> seq<Record>, s: Step, vectors: seq<Vector>)
    requires Sound(env.hash) && CleanFiles(files) && CleanFiles(later) && ScanOf(env, files, scan)
    requires CutOf(env, model, scan, s.records, s.vectors) && cut == scan[..|s.records|]
    requires at == HeldAt(env, files, later, cut)
    requires Refreshes(env, model, later, s) && Aligned(s, vectors) && Whole(env, files, later, s.records)
    ensures Agrees(At(env, later), RulesOf(env, model), s.combined, vectors)
  {
    CutIsHeld(env, model, files, later, scan, cut, s.records, s.vectors);
    forall p | p !in s.changed ensures at(p) == At(env, later)(p) {
      HeldUnchanged(env, model, files, later, scan, cut, s, p);
    }
    PreparedFrom(env, model, later, at, s);
    RefreshAgrees(at, At(env, later), RulesOf(env, model), s, vectors);
  }

  lemma {:induction false} AddedElsewhere(env: Env, model: string, later: Files, s: Step, p: string, r: Record,
                                          c: Record)
    requires Sound(env.hash) && CleanFiles(later) && ScanOf(env, later, s.scan) && s.added == Select(s.scan, s.changed)
    requires r in RecordsAt(env, later, p) && p !in s.changed && c in s.added
    ensures c.id != r.id
  {
    ScanIsLawful(env, model, later);
    assert r in At(env, later)(p);
    assert IsPlaced(RulesOf(env, model), p, r);
    ScanKnown(env, later, s.scan);
    if c.id == r.id { KnownTell(env, c, r); }
  }

  lemma {:induction false} KeptHasId(s: Step, id: string)
    requires Kept(s.records, s.vectors, s.changed, s.recs, s.vecs) && id in s.recs
    ensures s.recs[id].id == id && HasId(s.records, id)
  {
    assert IsKept(s.records, s.vectors, s.changed, id, s.recs[id], s.vecs[id]);
    var i :| 0 <= i < |s.records| && i < |s.vectors| && KeptAt(s.records, s.changed, i, id, s.recs[id])
             && s.vecs[id] == s.vectors[i];
    assert s.records[i].id == id;
  }

  /** A record of an unchanged path is in the refreshed index only if the old one had its id. */
  lemma {:induction false} OnlyKept(env: Env, model: string, later: Files, s: Step, p: string, r: Record)
    requires Sound(env.hash) && CleanFiles(later) && Refreshes(env, model, later, s)
    requires r in RecordsAt(env, later, p) && p !in s.changed && HasId(s.combined, r.id)
    ensures HasId(s.records, r.id)
  {
    var j :| 0 <= j < |s.combined| && s.combined[j].id == r.id;
    var c := s.combined[j];
    assert c in s.combined;
    if c in s.added {
      AddedElsewhere(env, model, later, s, p, r, c);
    } else {
      var id :| id in s.recs && s.recs[id] == c;
      KeptHasId(s, id);
    }
  }

  lemma {:induction false} RefreshedIsWhole(env: Env, model: string, files: Files, later: Files, scan: seq<Record>,
                                            s: Step, vectors: seq<Vector>)
    requires Sound(env.hash) && CleanFiles(files) && CleanFiles(later) && ScanOf(env, files, scan)
    requires CutOf(env, model, scan, s.records, s.vectors) && Refreshes(env, model, later, s)
    requires Agrees(At(env, later), RulesOf(env, model), s.combined, vectors)
    ensures Whole(env, files, later, s.records)
  {
    forall p, r | FileIn(s.records, p) && SameStamp(env, files, later, p) && r in RecordsAt(env, files, p)
      ensures HasId(s.records, r.id)
    {
      ChangedIfStamp(env, model, files, later, scan, s.records, s.scan, s.changed, p);
      SameRecords(env, files, later, p);
      assert r in At(env, later)(p);
      OnlyKept(env, model, later, s, p, r);
    }
  }

  /** Refreshing a cut index gives the whole scan of the new files if and only if no unchanged file was cut
      behind its file record: what is lost of such a file stays lost until the file changes. */
  lemma {:induction false} RefreshOfCut(env: Env, model: string, files: Files, later: Files, scan: seq<Record>, s: Step,
                                        vectors: seq<Vector>)
    requires Sound(env.hash) && CleanFiles(files) && CleanFiles(later) && ScanOf(env, files, scan)
    requires CutOf(env, model, scan, s.records, s.vectors)
    requires Refreshes(env, model, later, s) && Aligned(s, vectors)
    ensures Agrees(At(env, later), RulesOf(env, model), s.combined, vectors) <==> Whole(env, files, later, s.records)
  {
    if Whole(env, files, later, s.records) {
      var cut := scan[..|s.records|];
      WholeIsRefreshed(env, model, files, later, scan, cut, HeldAt(env, files, later, cut), s, vectors);
    }
    if Agrees(At(env, later), RulesOf(env, model), s.combined, vectors) {
      RefreshedIsWhole(env, model, files, later, scan, s, vectors);
    }
  }

  // ----- Where the cut falls -----

  /** The first record that was lost, if any, begins a file or stands for a folder. */
  predicate BetweenFiles(scan: seq<Record>, k: nat) {
    k < |scan| ==> scan[k].kind == File || scan[k].kind == Folder
  }

  /** The cut falls between two files, or into one that has changed since. */
  predicate Recoverable(env: Env, files: Files, later: Files, scan: seq<Record>, k: nat) {
    BetweenFiles(scan, k) || !SameStamp(env, files, later, scan[k].path)
  }

  lemma {:induction false} OneFileRecord(env: Env, files: Files, scan: seq<Record>, j: nat, m: nat)
    requires CleanFiles(files) && HoldsFiles(env, files, scan) && UniqueIds(scan) && j < |scan| && m < |scan|
    requires scan[j].kind == File == scan[m].kind && scan[j].path == scan[m].path
    ensures j == m
  {
    var p := scan[j].path;
    assert scan[j] in scan && scan[m] in scan;
    FileRecordsAreScanned(env, p, files[p]);
    assert scan[j] == FileRecord(env, p, files[p]) == scan[m];
    SamePlace(scan, j, m);
  }

  /** No path has two file records. */
  predicate OneFileEach(scan: seq<Record>) {
    forall i, j :: 0 <= i < j < |scan| && scan[i].kind == File && scan[j].kind == File ==> scan[i].path != scan[j].path
  }

  lemma {:induction false} ScanHasOneFileEach(env: Env, files: Files, scan: seq<Record>)
    requires CleanFiles(files) && HoldsFiles(env, files, scan) && UniqueIds(scan)
    ensures OneFileEach(scan)
  {
    forall i, j | 0 <= i < j < |scan| && scan[i].kind == File && scan[j].kind == File
      ensures scan[i].path != scan[j].path
    {
      if scan[i].path == scan[j].path { OneFileRecord(env, files, scan, i, j); }
    }
  }

  /** Behind a cut that does not fall into a file nothing is left of it, if its file record lies before. */
  lemma {:induction false} NothingBehindFile(scan: seq<Record>, k: nat, j: nat, m: nat)
    requires SortedBy(scan, NotAfter) && OneFileEach(scan) && j < k && j < |scan| && m < |scan|
    requires scan[j].kind == File && scan[m].path == scan[j].path && scan[m].kind != Folder
    requires BetweenFiles(scan, k) || scan[k].path != scan[j].path
    ensures m < k
  {
    if m > k {
      assert NotAfter(scan[j], scan[k]) && NotAfter(scan[k], scan[m]);
      PathBetween(scan[j], scan[k], scan[m]);
    }
  }

  lemma {:induction false} NotInCut(scan: seq<Record>, cut: seq<Record>, k: nat)
    requires UniqueIds(scan) && cut <= scan && |cut| <= k < |scan|
    ensures !HasId(cut, scan[k].id)
  {
    forall i | 0 <= i < |cut| ensures cut[i].id != scan[k].id { assert cut[i] == scan[i]; }
  }

  lemma {:induction false} WholeIsRecoverable(env: Env, files: Files, later: Files, scan: seq<Record>, cut: seq<Record>)
    requires CleanFiles(files) && HoldsFiles(env, files, scan) && UniqueIds(scan) && cut <= scan
    requires Whole(env, files, later, cut)
    ensures Recoverable(env, files, later, scan, |cut|)
  {
    var k := |cut|;
    if !BetweenFiles(scan, k) && SameStamp(env, files, later, scan[k].path) {
      var j := FileComesFirst(env, files, scan, k);
      assert cut[j] == scan[j] && FileIn(cut, scan[k].path) && scan[k] in scan;
      assert scan[k] in RecordsAt(env, files, scan[k].path);
      assert HasId(cut, scan[k].id);
      NotInCut(scan, cut, k);
    }
  }

  lemma {:induction false} StaysInCut(scan: seq<Record>, cut: seq<Record>, p: string, r: Record)
    requires SortedBy(scan, NotAfter) && OneFileEach(scan) && cut <= scan
    requires BetweenFiles(scan, |cut|) || scan[|cut|].path != p
    requires FileIn(cut, p) && r in scan && r.path == p && r.kind != Folder
    ensures HasId(cut, r.id)
  {
    var j :| 0 <= j < |cut| && cut[j].kind == File && cut[j].path == p;
    var m :| 0 <= m < |scan| && scan[m] == r;
    assert scan[j] == cut[j];
    NothingBehindFile(scan, |cut|, j, m);
    assert cut[m].id == r.id;
  }

  lemma {:induction false} FoundInFile(env: Env, files: Files, scan: seq<Record>, p: string, r: Record)
    requires Sound(env.hash) && CleanFiles(files) && HoldsFiles(env, files, scan) && r in RecordsAt(env, files, p)
    ensures r in scan && r.path == p && r.kind != Folder
  {
    ScanIsLawful(env, "", files);
    assert r in At(env, files)(p);
    assert IsPlaced(RulesOf(env, ""), p, r);
  }

  lemma {:induction false} RecoverableIsWhole(env: Env, files: Files, later: Files, scan: seq<Record>, cut: seq<Record>)
    requires Sound(env.hash) && CleanFiles(files) && HoldsFiles(env, files, scan) && UniqueIds(scan) && cut <= scan
    requires Recoverable(env, files, later, scan, |cut|)
    ensures Whole(env, files, later, cut)
  {
    ScanHasOneFileEach(env, files, scan);
    forall p, r | FileIn(cut, p) && SameStamp(env, files, later, p) && r in RecordsAt(env, files, p)
      ensures HasId(cut, r.id)
    {
      FoundInFile(env, files, scan, p, r);
      StaysInCut(scan, cut, p, r);
    }
  }

  lemma {:induction false} WholeBare(env: Env, files: Files, later: Files, records: seq<Record>, cut: seq<Record>)
    requires |records| == |cut| && forall i :: 0 <= i < |records| ==> Bare(records[i]) == Bare(cut[i])
    ensures Whole(env, files, later, records) <==> Whole(env, files, later, cut)
  {
    SameBare(records, cut);
  }

  lemma {:induction false} WholeIffRecoverable(env: Env, model: string, files: Files, later: Files, scan: seq<Record>,
                                               records: seq<Record>, vectors: seq<Vector>)
    requires Sound(env.hash) && CleanFiles(files) && ScanOf(env, files, scan) && NoTwins(env, files)
    requires CutOf(env, model, scan, records, vectors)
    ensures Whole(env, files, later, records) <==> Recoverable(env, files, later, scan, |records|)
  {
    var cut := scan[..|records|];
    ScanIsUnique(env, files, scan);
    ScanHoldsFiles(env, files, scan);
    WholeBare(env, files, later, records, cut);
    if Whole(env, files, later, cut) { WholeIsRecoverable(env, files, later, scan, cut); }
    if Recoverable(env, files, later, scan, |cut|) { RecoverableIsWhole(env, files, later, scan, cut); }
  }

  /** So, when ids are unique, a refresh completes a cut index exactly when the cut falls between two files,
      or into one that has changed since the build. */
  lemma {:induction false} CompleteIfRecoverable(env: Env, model: string, files: Files, later: Files,
                                                 scan: seq<Record>, s: Step, vectors: seq<Vector>)
    requires Sound(env.hash) && CleanFiles(files) && CleanFiles(later)
    requires ScanOf(env, files, scan) && NoTwins(env, files)
    requires CutOf(env, model, scan, s.records, s.vectors)
    requires Refreshes(env, model, later, s) && Aligned(s, vectors)
    ensures Agrees(At(env, later), RulesOf(env, model), s.combined, vectors) <==>
            Recoverable(env, files, later, scan, |s.records|)
  {
    RefreshOfCut(env, model, files, later, scan, s, vectors);
    WholeIffRecoverable(env, model, files, later, scan, s.records, s.vectors);
  }

  // ----- Through the service -----

  lemma {:induction false} AgreesAlike(at: string -> seq<Record>, env: Env, model: string, a: seq<Record>,
                                       b: seq<Record>, vectors: seq<Vector>)
    requires |a| == |b| && forall i :: 0 <= i < |a| ==> Bare(a[i]) == Bare(b[i])
    requires Agrees(at, RulesOf(env, model), a, vectors)
    ensures Agrees(at, RulesOf(env, model), b, vectors)
  {
    SortedPart(b, a);
    SameBare(b, a);
    forall i | 0 <= i < |b|
      ensures Known(env, b[i])
      ensures b[i].kind != Folder ==> Right(at(b[i].path), RulesOf(env, model), b[i], vectors[i])
    {
      assert a[i] in a;
      BareIsKnown(env, b[i], a[i]);
      assert Bare(a[i]).kind == Bare(b[i]).kind && Bare(a[i]).path == Bare(b[i]).path;
    }
  }

  lemma {:induction false} StoredAgreesToo(env: Env, model: string, files: Files, storePreviews: bool, s: Step,
                                           vectors: seq<Vector>)
    ensures Agrees(At(env, files), RulesOf(env, model), Written(s.combined, storePreviews), vectors) <==>
            Agrees(At(env, files), RulesOf(env, model), s.combined, vectors)
  {
    var at, rules, w := At(env, files), RulesOf(env, model), Written(s.combined, storePreviews);
    forall i | 0 <= i < |w| ensures Bare(w[i]) == Bare(s.combined[i]) {
      assert Bare(Bare(s.combined[i])) == Bare(s.combined[i]);
    }
    if Agrees(at, rules, w, vectors) { AgreesAlike(at, env, model, w, s.combined, vectors); }
    if Agrees(at, rules, s.combined, vectors) { AgreesAlike(at, env, model, s.combined, w, vectors); }
  }

  /** A build, and a refresh after any changes to the files: the stored index holds the whole scan exactly
      when the record limit did not fall into a file that is still the same. The refresh itself has no
      limit. */
  method BuildThenRefresh(service: LocalService, cfg: Config, files: Files, later: Files, fails: nat -> bool)
    returns (fellBack: bool, ghost scan: seq<Record>)
    requires service.Valid() && CleanFiles(files) && CleanFiles(later) && Healthy(service.env, cfg, fails)
    requires NoTwins(service.env, files)
    modifies service
    ensures service.Valid() && service.store != [] && ScanOf(service.env, files, scan)
    ensures !fellBack ==>
      (AgreesWith(service.env, later, service.Newest()) <==>
       Recoverable(service.env, files, later, scan, Limited(cfg.maxRecords, |scan|)))
  {
    var outcome, batches := service.Build(cfg, files, fails);
    ghost var built := service.Newest();
    scan :| ScanOf(service.env, files, scan) && CutOf(service.env, cfg.model, scan, built.records, built.vectors)
            && |built.records| == Limited(cfg.maxRecords, |scan|);
    ghost var step;
    outcome, batches, fellBack, step := service.Refresh(cfg, later, fails);
    if !fellBack {
      CompleteIfRecoverable(service.env, cfg.model, files, later, scan, step, service.Newest().vectors);
      StoredAgreesToo(service.env, cfg.model, later, cfg.storePreviews, step, service.Newest().vectors);
    }
  }
}
