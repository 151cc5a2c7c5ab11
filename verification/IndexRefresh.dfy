/** The semantic index service: full builds, incremental refreshes, the store and the cache in front
    of it (internal/semantic/service.go, store.go). */
module IndexRefresh {
  import opened Options
  import opened Ordering
  import opened Records
  import opened IndexAgreement
  import Rank = Ranking
  import Trim = SessionRule

  datatype Config = Config(enabled: bool, model: string, dimensions: int, batchSize: int, maxRecords: int,
                           storePreviews: bool)

  /** `id` names the index directory; it is made from the model and the dimensions at build time. */
  datatype Manifest = Manifest(id: (string, int), model: string, dimensions: int, recordCount: nat, fileCount: nat,
                               storePreviews: bool, updatedAt: nat)

  datatype Index = Index(manifest: Manifest, records: seq<Record>, vectors: seq<Vector>)

  datatype Outcome = Done | Disabled | EmbedFailed | DimensionsChanged | Rejected

  const DEFAULT_BATCH_SIZE := 32

  // ----- Parts of a refresh -----

  /** orderedDimensions, and the dimensions that embedRecords reports. */
  function FirstDimension(vectors: seq<Vector>, fallback: int): int {
    if vectors == [] then fallback
    else if |vectors[0]| > 0 then |vectors[0]|
    else FirstDimension(vectors[1..], fallback)
  }

  function FilePaths(records: seq<Record>): set<string> {
    set r | r in records && r.kind != Folder :: r.path
  }

  /** uniqueFileCount. */
  method UniqueFileCount(records: seq<Record>) returns (n: nat)
    ensures n == |FilePaths(records)|
  {
    var paths := {};
    for i := 0 to |records|
      invariant paths == FilePaths(records[..i])
    {
      assert records[..i + 1] == records[..i] + [records[i]];
      if records[i].kind != Folder {
        paths := paths + {records[i].path};
      }
    }
    assert records[..|records|] == records;
    n := |paths|;
  }

  /** fileHashesByPath. */
  method FileHashesByPath(records: seq<Record>) returns (m: map<string, string>)
    ensures HashesOf(records, m)
  {
    m := map[];
    for k := 0 to |records|
      invariant forall p :: p in m ==> IsFileHash(records, p, m[p])
      invariant forall i :: 0 <= i < k && records[i].kind == File && records[i].path != ""
                            && records[i].contentHash != ""
                  ==> records[i].path in m
    {
      var rec := records[k];
      if rec.kind == File && rec.path != "" && rec.contentHash != "" {
        m := m[rec.path := rec.contentHash];
      }
    }
  }

  /** The two loops that compare the file hashes, over maps in any order. */
  method CompareHashes(before: map<string, string>, after: map<string, string>) returns (changed: set<string>)
    ensures changed == ChangedPaths(before, after)
  {
    changed := {};
    var todo := after.Keys;
    while todo != {}
      invariant todo <= after.Keys
      invariant forall p :: p in changed <==> p in after && p !in todo && (p !in before || before[p] != after[p])
      decreases |todo|
    {
      var p :| p in todo;
      todo := todo - {p};
      if p !in before || before[p] != after[p] {
        changed := changed + {p};
      }
    }
    ghost var first := changed;
    todo := before.Keys;
    while todo != {}
      invariant todo <= before.Keys
      invariant forall p :: p in changed <==> p in first || (p in before && p !in todo && p !in after)
      decreases |todo|
    {
      var p :| p in todo;
      todo := todo - {p};
      if p !in after {
        changed := changed + {p};
      }
    }
  }

  /** Keeps the old records of unchanged paths with their vectors. */
  method Keep(records: seq<Record>, vectors: seq<Vector>, changed: set<string>)
    returns (recs: map<string, Record>, vecs: map<string, Vector>)
    ensures Kept(records, vectors, changed, recs, vecs)
  {
    recs, vecs := map[], map[];
    for k := 0 to |records|
      invariant recs.Keys == vecs.Keys
      invariant forall id :: id in recs ==> IsKept(records, vectors, changed, id, recs[id], vecs[id])
      invariant forall i :: 0 <= i < k && i < |vectors| && records[i].path !in changed ==> records[i].id in recs
    {
      var rec := records[k];
      if rec.path !in changed && k < |vectors| {
        recs, vecs := recs[rec.id := rec], vecs[rec.id := vectors[k]];
        assert KeptAt(records, changed, k, rec.id, rec);
      }
    }
  }

  /** The scanned records of changed paths, in scan order. */
  method SelectChanged(records: seq<Record>, changed: set<string>) returns (added: seq<Record>)
    ensures added == Select(records, changed)
    ensures changed == {} ==> added == []
  {
    added := [];
    for i := 0 to |records|
      invariant added == Select(records[..i], changed)
      invariant changed == {} ==> added == []
    {
      assert records[..i + 1][..i] == records[..i];
      if records[i].path in changed {
        added := added + [records[i]];
      }
    }
    assert records[..|records|] == records;
  }

  /** The kept records, in any order. */
  method Listed(recs: map<string, Record>) returns (all: seq<Record>)
    requires forall id :: id in recs ==> recs[id].id == id
    ensures forall r :: r in all <==> r.id in recs && recs[r.id] == r
    ensures UniqueIds(all)
  {
    all := [];
    var todo := recs.Keys;
    while todo != {}
      invariant todo <= recs.Keys
      invariant forall r :: r in all <==> r.id in recs && r.id !in todo && recs[r.id] == r
      invariant UniqueIds(all)
      decreases |todo|
    {
      var id :| id in todo;
      UniqueAppend(all, recs[id]);
      todo := todo - {id};
      all := all + [recs[id]];
    }
  }

  lemma {:induction false} UniqueAppend(all: seq<Record>, x: Record)
    requires UniqueIds(all) && forall r :: r in all ==> r.id != x.id
    ensures UniqueIds(all + [x])
  {
    forall i, j | 0 <= i < j < |all + [x]| ensures (all + [x])[i].id != (all + [x])[j].id {
      if j == |all| { assert all[i] in all; }
    }
  }

  lemma {:induction false} ListedIsKept(recs: map<string, Record>, r: Record)
    requires forall id :: id in recs ==> recs[id].id == id
    ensures (r.id in recs && recs[r.id] == r) <==> exists id :: id in recs && recs[id] == r
  {
  }

  /** The kept records in any order, then the new ones, sorted. */
  method Combine(recs: map<string, Record>, added: seq<Record>) returns (combined: seq<Record>)
    requires forall id :: id in recs ==> recs[id].id == id
    ensures Combined(recs, added, combined)
    ensures UniqueIds(added) && (forall r :: r in added ==> r.id !in recs) ==> UniqueIds(combined)
  {
    var all := Listed(recs);
    combined := SortRecords(all + added);
    SortedRecords(all + added);
    forall r ensures r in all <==> exists id :: id in recs && recs[id] == r { ListedIsKept(recs, r); }
    if UniqueIds(added) && forall r :: r in added ==> r.id !in recs {
      UniqueTogether(all, added, recs.Keys);
      UniqueInAnyOrder(all + added, combined);
    }
  }

  lemma {:induction false} UniqueTogether(a: seq<Record>, b: seq<Record>, ids: set<string>)
    requires UniqueIds(a) && UniqueIds(b)
    requires (forall r :: r in a ==> r.id in ids) && (forall r :: r in b ==> r.id !in ids)
    ensures UniqueIds(a + b)
  {
    var all := a + b;
    forall i, j | 0 <= i < j < |all| ensures all[i].id != all[j].id {
      if i < |a| <= j { assert all[i] in a && all[j] in b; }
    }
  }

  /** The kept vectors by id, overwritten by the new ones. */
  method Merge(vecs: map<string, Vector>, added: seq<Record>, vectors: seq<Vector>) returns (all: map<string, Vector>)
    requires |vectors| == |added|
    ensures Merged(vecs, added, vectors, all)
  {
    all := vecs;
    for k := 0 to |added|
      invariant forall id :: id in all <==> id in vecs || HasId(added[..k], id)
      invariant forall id :: id in all && !HasId(added[..k], id) ==> all[id] == vecs[id]
      invariant forall id :: id in all && HasId(added[..k], id) ==>
        exists i :: 0 <= i < k && added[i].id == id && all[id] == vectors[i]
    {
      all := all[added[k].id := vectors[k]];
      OneMoreId(added, k);
    }
    assert added[..|added|] == added;
  }

  lemma {:induction false} OneMoreId(records: seq<Record>, k: nat)
    requires k < |records|
    ensures forall id :: HasId(records[..k + 1], id) <==> HasId(records[..k], id) || id == records[k].id
  {
    forall id | HasId(records[..k], id) ensures HasId(records[..k + 1], id) {
      var i :| 0 <= i < k && records[..k][i].id == id;
      assert records[..k + 1][i].id == id;
    }
    assert records[..k + 1][k].id == records[k].id;
    forall id | HasId(records[..k + 1], id) ensures HasId(records[..k], id) || id == records[k].id {
      var i :| 0 <= i < k + 1 && records[..k + 1][i].id == id;
      assert i < k ==> records[..k][i].id == id;
    }
  }

  /** The combined records that have a vector, next to it. */
  method Align(combined: seq<Record>, all: map<string, Vector>) returns (records: seq<Record>, vectors: seq<Vector>)
    ensures |vectors| == |records|
    ensures forall i :: 0 <= i < |records| ==> records[i].id in all && vectors[i] == all[records[i].id]
    ensures (forall r :: r in combined ==> r.id in all) ==> records == combined
  {
    records, vectors := [], [];
    for k := 0 to |combined|
      invariant |vectors| == |records|
      invariant forall i :: 0 <= i < |records| ==> records[i].id in all && vectors[i] == all[records[i].id]
      invariant (forall r :: r in combined ==> r.id in all) ==> records == combined[..k]
    {
      assert combined[..k + 1] == combined[..k] + [combined[k]];
      if combined[k].id in all {
        records, vectors := records + [combined[k]], vectors + [all[combined[k].id]];
      }
    }
    assert combined[..|combined|] == combined;
  }

  /** What writeRecords leaves of the records. */
  function Written(records: seq<Record>, storePreviews: bool): (w: seq<Record>)
    ensures |w| == |records|
    ensures forall i :: 0 <= i < |w| ==> w[i] == if storePreviews then records[i] else Bare(records[i])
  {
    seq(|records|, i requires 0 <= i < |records| => if storePreviews then records[i] else Bare(records[i]))
  }

  /** Dropping the texts does not disturb the agreement. */
  lemma {:induction false} WrittenAgrees(at: string -> seq<Record>, rules: Rules, records: seq<Record>,
                                         vectors: seq<Vector>, storePreviews: bool)
    requires Agrees(at, rules, records, vectors)
    requires forall r :: rules.known(Bare(r)) == rules.known(r)
    ensures Agrees(at, rules, Written(records, storePreviews), vectors)
  {
    var w := Written(records, storePreviews);
    forall i, j | 0 <= i < j < |w| ensures NotAfter(w[i], w[j]) {
      assert NotAfter(records[i], records[j]);
    }
    forall r | r in w ensures rules.known(r) {
      var i :| 0 <= i < |w| && w[i] == r;
      assert records[i] in records;
    }
    forall i | 0 <= i < |w| && w[i].kind != Folder ensures Right(at(w[i].path), rules, w[i], vectors[i]) {
      assert Right(at(records[i].path), rules, records[i], vectors[i]);
      assert Bare(w[i]) == Bare(records[i]);
    }
    forall p, r | r in at(p) ensures HasId(w, r.id) {
      assert HasId(records, r.id);
      var i :| 0 <= i < |records| && records[i].id == r.id;
      assert w[i].id == r.id;
    }
  }

  function Without(store: seq<Index>, id: (string, int)): (s: seq<Index>)
    ensures forall ix :: ix in s <==> ix in store && ix.manifest.id != id
  {
    if store == [] then []
    else
      assert store == [store[0]] + store[1..];
      var rest := Without(store[1..], id);
      if store[0].manifest.id == id then rest else [store[0]] + rest
  }

  // ----- The service -----

  /** What a refresh is about to do. */
  datatype Plan = Ready(records: seq<Record>, vectors: seq<Vector>) | Rebuild | Refused(outcome: Outcome)

  datatype EmbedResult = Embedded(dimensions: int, vectors: seq<Vector>) | Failed(outcome: Outcome)

  /** The index was made from these files. */
  ghost predicate AgreesWith(env: Env, files: Files, ix: Index) {
    Agrees(At(env, files), RulesOf(env, ix.manifest.model), ix.records, ix.vectors)
  }

  /** The step is a refresh of this index. */
  ghost predicate IsRefresh(env: Env, model: string, files: Files, ix: Index, s: Step) {
    s.records == ix.records && s.vectors == ix.vectors && Refreshes(env, model, files, s)
  }

  /** The model gives vectors of one positive length. */
  ghost predicate Uniform(env: Env, model: string) {
    (forall a, b :: |env.embed(model, a)| == |env.embed(model, b)|) && |env.embed(model, "")| > 0
  }

  /** Nothing in the way of an index: the service is on, the embedder answers and its vectors fit. */
  ghost predicate Healthy(env: Env, cfg: Config, fails: nat -> bool) {
    cfg.enabled && Trim.TrimSpace(cfg.model) != "" && cfg.dimensions > 0 && Uniform(env, cfg.model)
    && forall n :: !fails(n)
  }

  /** The checks of LocalStore.Replace. */
  predicate Fits(manifest: Manifest, records: seq<Record>, vectors: seq<Vector>) {
    Trim.TrimSpace(manifest.model) != "" && manifest.dimensions > 0 && |vectors| == |records|
    && forall i :: 0 <= i < |vectors| ==> |vectors[i]| == manifest.dimensions
  }

  predicate LengthsAre(d: int, vecs: map<string, Vector>, vectors: seq<Vector>) {
    (forall id :: id in vecs ==> |vecs[id]| == d) && (forall i :: 0 <= i < |vectors| ==> |vectors[i]| == d)
  }

  /** What holds of every stored index by itself. */
  ghost predicate Sane(env: Env, ix: Index) {
    && |ix.vectors| == |ix.records| && ix.manifest.dimensions > 0
    && (forall i :: 0 <= i < |ix.vectors| ==> |ix.vectors[i]| == ix.manifest.dimensions)
    && ix.manifest.id.0 == Trim.TrimSpace(ix.manifest.model)
    && (forall r :: r in ix.records ==> Known(env, r))
  }

  /** The index as LocalStore.Replace writes it. */
  function StoredIndex(manifest: Manifest, records: seq<Record>, vectors: seq<Vector>, stamp: nat): Index {
    Index(manifest.(recordCount := |records|, updatedAt := stamp), Written(records, manifest.storePreviews), vectors)
  }

  lemma {:induction false} StoredIsSane(env: Env, manifest: Manifest, records: seq<Record>, vectors: seq<Vector>,
                                        stamp: nat)
    requires Fits(manifest, records, vectors) && manifest.id.0 == Trim.TrimSpace(manifest.model)
    requires forall r :: r in records ==> Known(env, r)
    ensures Sane(env, StoredIndex(manifest, records, vectors, stamp))
    ensures UniqueIds(records) ==> UniqueIds(StoredIndex(manifest, records, vectors, stamp).records)
  {
    WrittenIsKnown(env, records, manifest.storePreviews);
  }

  lemma {:induction false} StoredIsDated(env: Env, manifest: Manifest, records: seq<Record>, vectors: seq<Vector>,
                                         clock: nat, sources: map<nat, Files>, source: Option<Files>)
    requires forall stamp :: stamp in sources ==> stamp < clock
    requires source.Some? ==> CleanFiles(source.value)
                              && Agrees(At(env, source.value), RulesOf(env, manifest.model), records, vectors)
    ensures var ix := StoredIndex(manifest, records, vectors, clock);
      Dated(env, clock + 1, Later(sources, clock, source), ix)
      && (source.Some? ==> AgreesWith(env, source.value, ix))
  {
    if source.Some? {
      StoredAgrees(env, manifest.model, source.value, records, vectors, manifest.storePreviews);
    }
  }

  /** The index is older than the clock, and agrees with the files it is said to come from. */
  ghost predicate Dated(env: Env, clock: nat, sources: map<nat, Files>, ix: Index) {
    var stamp := ix.manifest.updatedAt;
    && stamp < clock
    && (stamp in sources ==> CleanFiles(sources[stamp]) && AgreesWith(env, sources[stamp], ix))
  }

  lemma {:induction false} StaysDated(env: Env, clock: nat, sources: map<nat, Files>, ix: Index, later: map<nat, Files>)
    requires Dated(env, clock, sources, ix) && forall stamp :: stamp < clock ==> (stamp in later <==> stamp in sources)
    requires forall stamp :: stamp in sources && stamp in later && stamp < clock ==> later[stamp] == sources[stamp]
    ensures Dated(env, clock + 1, later, ix)
  {
  }

  /** The sources after an index made from `source` is stored at this time. */
  function Later(sources: map<nat, Files>, clock: nat, source: Option<Files>): map<nat, Files> {
    if source.Some? then sources[clock := source.value] else sources
  }

  ghost predicate AllOk(env: Env, clock: nat, sources: map<nat, Files>, store: seq<Index>) {
    && (forall ix :: ix in store ==> Sane(env, ix) && Dated(env, clock, sources, ix))
    && (forall stamp :: stamp in sources ==> stamp < clock)
  }

  /** Storing one more good index keeps all the stored ones good. */
  lemma {:induction false} StoreStays(env: Env, store: seq<Index>, id: (string, int), clock: nat, sources: map<nat,
                                      Files>,
                                      source: Option<Files>, newest: Index)
    requires AllOk(env, clock, sources, store)
    requires Sane(env, newest) && Dated(env, clock + 1, Later(sources, clock, source), newest)
    ensures AllOk(env, clock + 1, Later(sources, clock, source), Without(store, id) + [newest])
  {
    forall ix | ix in Without(store, id)
      ensures Sane(env, ix) && Dated(env, clock + 1, Later(sources, clock, source), ix)
    {
      StaysDated(env, clock, sources, ix, Later(sources, clock, source));
    }
  }

  class LocalService {
    const env: Env
    /** The stored indexes of the workspace, the newest last. */
    var store: seq<Index>
    var cache: Option<Index>
    var clock: nat
    /** For each index that holds a whole scan, by its time stamp, the files of that scan. */
    ghost var sources: map<nat, Files>

    constructor (env: Env)
      requires Sound(env.hash)
      ensures Valid() && store == [] && this.env == env
    {
      this.env := env;
      store, cache, clock, sources := [], None, 0, map[];
    }

    ghost predicate Valid()
      reads this
    {
      && Sound(env.hash)
      && AllOk(env, clock, sources, store)
      && (cache.Some? ==> cache.value.manifest.updatedAt < clock)
      && (cache.Some? && store != [] && cache.value.manifest == Newest().manifest ==> cache.value == Newest())
    }

    function Newest(): Index
      requires store != []
      reads this
    {
      store[|store| - 1]
    }

    /** The newest index holds the whole scan of the files. */
    ghost predicate Holds(files: Files)
      reads this
    {
      && store != [] && Newest().manifest.updatedAt in sources && sources[Newest().manifest.updatedAt] == files
      && AgreesWith(env, files, Newest())
    }

    /** One request to the embedder: the vectors up to `end`, unless their dimensions differ. */
    method EmbedBatch(model: string, inputs: seq<string>, end: nat, before: seq<Vector>, dimension: int)
      returns (ok: bool, vectors: seq<Vector>, actual: int)
      requires |before| <= end <= |inputs| && dimension == FirstDimension(before, 0)
      requires forall j :: 0 <= j < |before| ==> before[j] == env.embed(model, inputs[j])
      ensures Uniform(env, model) ==> ok
      ensures ok ==> |vectors| == end && actual == FirstDimension(vectors, 0)
      ensures ok ==> forall j :: 0 <= j < end ==> vectors[j] == env.embed(model, inputs[j])
    {
      ok, vectors, actual := true, before, dimension;
      for i := |before| to end
        invariant |vectors| == i && actual == FirstDimension(vectors, 0)
        invariant forall j :: 0 <= j < i ==> vectors[j] == env.embed(model, inputs[j])
      {
        var vec := env.embed(model, inputs[i]);
        if actual == 0 {
          actual := |vec|;
        }
        if |vec| != actual {
          FirstDimensionIsLength(vectors);
          return false, vectors, actual;
        }
        FirstDimensionGrows(vectors, vec, 0);
        vectors := vectors + [vec];
      }
    }

    /** embedRecords; `fails(n)` tells that the n-th request to the embedder fails. */
    method EmbedRecords(cfg: Config, records: seq<Record>, fails: nat -> bool) returns (r: EmbedResult, batches: nat)
      ensures r.Embedded? ==> |r.vectors| == |records| && r.dimensions == FirstDimension(r.vectors, cfg.dimensions)
      ensures r.Embedded? ==>
        forall i :: 0 <= i < |records| ==> r.vectors[i] == env.embed(cfg.model, EmbedInput(records[i]))
      ensures r.Embedded? ==>
        forall i :: 0 <= i < |records| ==>
          var text, preview := Trim.TrimSpace(records[i].embedText), Trim.TrimSpace(records[i].textPreview);
          && (text != "" ==> r.vectors[i] == env.embed(cfg.model, text))
          && (text == "" && preview != "" ==> r.vectors[i] == env.embed(cfg.model, preview))
          && (text == "" && preview == "" ==> r.vectors[i] == env.embed(cfg.model, Trim.TrimSpace(records[i].path)))
      ensures records == [] ==> r.Embedded? && batches == 0
      ensures r.Failed? ==> (r.outcome == EmbedFailed && exists n :: fails(n))
                            || (r.outcome == DimensionsChanged && !Uniform(env, cfg.model))
    {
      var inputs := seq(|records|, i requires 0 <= i < |records| => EmbedInput(records[i]));
      var size := if cfg.batchSize <= 0 then DEFAULT_BATCH_SIZE else cfg.batchSize;
      var vectors: seq<Vector> := [];
      var actual, start: int := 0, 0;
      batches := 0;
      while start < |inputs|
        invariant 0 <= start && |vectors| == (if start < |inputs| then start else |inputs|)
        invariant forall i :: 0 <= i < |vectors| ==> vectors[i] == env.embed(cfg.model, inputs[i])
        invariant actual == FirstDimension(vectors, 0)
        invariant records == [] ==> batches == 0
        decreases |inputs| - start
      {
        var end := if start + size > |inputs| then |inputs| else start + size;
        if fails(batches) {
          return Failed(EmbedFailed), batches;
        }
        var ok;
        ok, vectors, actual := EmbedBatch(cfg.model, inputs, end, vectors, actual);
        if !ok {
          return Failed(DimensionsChanged), batches;
        }
        batches := batches + 1;
        start := start + size;
      }
      FirstDimensionFallback(vectors, cfg.dimensions);
      r := Embedded(if actual == 0 then cfg.dimensions else actual, vectors);
    }

    /** LocalStore.Replace: checks, then puts the index in place of the one with the same id. */
    method Replace(manifest: Manifest, records: seq<Record>, vectors: seq<Vector>) returns (ok: bool)
      modifies this`store, this`clock
      ensures ok <==> Fits(manifest, records, vectors)
      ensures ok <==> Trim.TrimSpace(manifest.model) != "" && manifest.dimensions > 0 && |vectors| == |records|
                      && forall i :: 0 <= i < |vectors| ==> |vectors[i]| == manifest.dimensions
      ensures !ok ==> store == old(store) && clock == old(clock)
      ensures ok ==> clock == old(clock) + 1
      ensures ok ==> store == Without(old(store), manifest.id) + [StoredIndex(manifest, records, vectors, old(clock))]
    {
      if Trim.TrimSpace(manifest.model) == "" || manifest.dimensions <= 0 || |vectors| != |records| {
        return false;
      }
      for i := 0 to |vectors|
        invariant forall j :: 0 <= j < i ==> |vectors[j]| == manifest.dimensions
      {
        if |vectors[i]| != manifest.dimensions {
          return false;
        }
      }
      store := Without(store, manifest.id) + [StoredIndex(manifest, records, vectors, clock)];
      clock := clock + 1;
      ok := true;
    }

    /** Stores an index made from `source`, if it is a whole scan of known files, and forgets the cache. */
    method Publish(manifest: Manifest, records: seq<Record>, vectors: seq<Vector>, ghost source: Option<Files>)
      returns (ok: bool)
      requires Valid() && manifest.id.0 == Trim.TrimSpace(manifest.model)
      requires forall r :: r in records ==> Known(env, r)
      requires source.Some? ==> CleanFiles(source.value)
                                && Agrees(At(env, source.value), RulesOf(env, manifest.model), records, vectors)
      modifies this
      ensures Valid()
      ensures ok <==> Fits(manifest, records, vectors)
      ensures !ok ==> store == old(store) && cache == old(cache) && sources == old(sources)
      ensures ok ==> store != [] && store == Without(old(store), manifest.id) + [Newest()]
      ensures ok ==> Newest().manifest.id == manifest.id && Newest().manifest.model == manifest.model
      ensures ok ==> Newest().records == Written(records, manifest.storePreviews) && Newest().vectors == vectors
      ensures ok && UniqueIds(records) ==> UniqueIds(Newest().records)
      ensures ok && source.Some? ==> Holds(source.value)
    {
      ghost var stored, dated, was := store, clock, sources;
      ok := Replace(manifest, records, vectors);
      if ok {
        cache := None;
        sources := Later(was, dated, source);
        StoredIsSane(env, manifest, records, vectors, dated);
        StoredIsDated(env, manifest, records, vectors, dated, was, source);
        StoreStays(env, stored, manifest.id, dated, was, source, StoredIndex(manifest, records, vectors, dated));
      }
    }

    /** What a build is about to store: the records, up to the limit, and their vectors. */
    method PlanBuild(cfg: Config, files: Files, fails: nat -> bool)
      returns (embedded: EmbedResult, records: seq<Record>, batches: nat, ghost source: Option<Files>)
      requires Sound(env.hash) && CleanFiles(files)
      ensures forall r :: r in records ==> Known(env, r)
      ensures NoTwins(env, files) ==> UniqueIds(records)
      ensures embedded.Embedded? ==> |embedded.vectors| == |records|
      ensures embedded.Embedded? ==> FirstOf(env, cfg.model, cfg.maxRecords, files, records, embedded.vectors)
      ensures embedded.Embedded? && source.Some? ==>
        source == Some(files) && Agrees(At(env, files), RulesOf(env, cfg.model), records, embedded.vectors)
      ensures embedded.Embedded? && source.None? ==> 0 < cfg.maxRecords == |records|
      ensures embedded.Failed? ==> !embedded.outcome.Done? && !Healthy(env, cfg, fails)
      ensures embedded.Embedded? && Uniform(env, cfg.model) && cfg.dimensions > 0 ==>
        embedded.dimensions > 0 && forall i :: 0 <= i < |records| ==> |embedded.vectors[i]| == embedded.dimensions
    {
      var scan := ScanWorkspace(env, files);
      records := scan;
      if cfg.maxRecords > 0 && |records| > cfg.maxRecords {
        records := records[..cfg.maxRecords];
      }
      assert records == scan[..Limited(cfg.maxRecords, |scan|)];
      FirstKnown(env, files, scan, records);
      embedded, batches := EmbedRecords(cfg, records, fails);
      source := None;
      if embedded.Embedded? {
        PlanHolds(env, cfg, files, scan, records, embedded.vectors);
        source := if records == scan then Some(files) else None;
      }
    }

    /** Build: scans, embeds everything and replaces the index. */
    method Build(cfg: Config, files: Files, fails: nat -> bool) returns (outcome: Outcome, batches: nat)
      requires Valid() && CleanFiles(files)
      modifies this
      ensures Valid()
      ensures !outcome.Done? ==> store == old(store) && cache == old(cache) && sources == old(sources)
      ensures outcome.Done? ==> store != [] && store == Without(old(store), Newest().manifest.id) + [Newest()]
      ensures outcome.Done? ==> Newest().manifest.model == cfg.model
      ensures outcome.Done? && (cfg.maxRecords <= 0 || |Newest().records| < cfg.maxRecords) ==> Holds(files)
      ensures outcome.Done? && NoTwins(env, files) ==> UniqueIds(Newest().records)
      ensures outcome.Done? ==> FirstOf(env, cfg.model, cfg.maxRecords, files, Newest().records, Newest().vectors)
      ensures Healthy(env, cfg, fails) ==> outcome.Done?
    {
      if !cfg.enabled {
        return Disabled, 0;
      }
      var embedded, records;
      ghost var source;
      embedded, records, batches, source := PlanBuild(cfg, files, fails);
      if embedded.Failed? {
        return embedded.outcome, batches;
      }
      var ok := StoreBuild(cfg, files, embedded, records, source);
      outcome := if ok then Done else Rejected;
    }

    /** The last part of a build: the manifest, and the index under it. */
    method StoreBuild(cfg: Config, files: Files, embedded: EmbedResult, records: seq<Record>,
                      ghost source: Option<Files>)
      returns (ok: bool)
      requires Valid() && CleanFiles(files) && embedded.Embedded? && forall r :: r in records ==> Known(env, r)
      requires FirstOf(env, cfg.model, cfg.maxRecords, files, records, embedded.vectors)
      requires source.Some? ==>
        source == Some(files) && Agrees(At(env, files), RulesOf(env, cfg.model), records, embedded.vectors)
      modifies this
      ensures Valid()
      ensures !ok ==> store == old(store) && cache == old(cache) && sources == old(sources)
      ensures ok ==> store != [] && store == Without(old(store), Newest().manifest.id) + [Newest()]
      ensures ok ==> Newest().manifest.model == cfg.model && |Newest().records| == |records|
      ensures ok && source.Some? ==> Holds(files)
      ensures ok && UniqueIds(records) ==> UniqueIds(Newest().records)
      ensures ok ==> FirstOf(env, cfg.model, cfg.maxRecords, files, Newest().records, Newest().vectors)
      ensures Trim.TrimSpace(cfg.model) != "" && embedded.dimensions > 0 && |embedded.vectors| == |records|
              && (forall i :: 0 <= i < |embedded.vectors| ==> |embedded.vectors[i]| == embedded.dimensions)
              ==> ok
    {
      WrittenIsFirst(env, cfg, files, records, embedded.vectors);
      var fileCount := UniqueFileCount(records);
      var manifest := Manifest((Trim.TrimSpace(cfg.model), embedded.dimensions), cfg.model, embedded.dimensions,
                               |records|, fileCount, cfg.storePreviews, 0);
      ok := Publish(manifest, records, embedded.vectors, source);
    }

    /** The first half of a refresh: what changed, what is kept and what has to be embedded. */
    method Compare(ix: Index, files: Files, ghost source: Option<Files>)
      returns (scan: seq<Record>, changed: set<string>, recs: map<string, Record>, vecs: map<string, Vector>,
               added: seq<Record>)
      requires Sound(env.hash) && CleanFiles(files) && forall r :: r in ix.records ==> Known(env, r)
      requires source.Some? ==> CleanFiles(source.value) && AgreesWith(env, source.value, ix)
      ensures forall id :: id in recs ==> recs[id].id == id && Known(env, recs[id])
      ensures forall r :: r in added ==> r.id !in recs && Known(env, r)
      ensures NoTwins(env, files) ==> UniqueIds(added)
      ensures ScanOf(env, files, scan) && Kept(ix.records, ix.vectors, changed, recs, vecs)
      ensures ChangedBetween(ix.records, scan, changed) && added == Select(scan, changed)
      ensures source.Some? ==>
        forall p :: p !in changed ==> At(env, source.value)(p) == At(env, files)(p)
      ensures source == Some(files) ==> added == []
    {
      scan := ScanWorkspace(env, files);
      var before := FileHashesByPath(ix.records);
      var after := FileHashesByPath(scan);
      changed := CompareHashes(before, after);
      recs, vecs := Keep(ix.records, ix.vectors, changed);
      added := SelectChanged(scan, changed);
      KeptAreKnown(env, ix, changed, recs, vecs);
      KeptApart(env, ix, files, scan, changed, recs, vecs, added);
      if source.Some? {
        UnchangedPaths(env, source.value, files, ix, scan, before, after);
      }
    }

    /** The second half: kept and new records together, sorted, each with its vector. */
    method Assemble(recs: map<string, Record>, vecs: map<string, Vector>, added: seq<Record>, newVectors: seq<Vector>,
                    ghost dimension: int, ghost source: Option<Files>, ghost files: Files, ghost rules: Rules,
                    ghost s: Step)
      returns (records: seq<Record>, vectors: seq<Vector>, ghost all: map<string, Vector>)
      requires recs.Keys == vecs.Keys && |newVectors| == |added| && forall id :: id in recs ==> recs[id].id == id
      requires s.recs == recs && s.vecs == vecs && s.added == added && s.newVectors == newVectors
      requires source.Some? ==> Prepared(At(env, source.value), At(env, files), rules, s)
      ensures |vectors| == |records| && Combined(recs, added, records) && Merged(vecs, added, newVectors, all)
      ensures forall i :: 0 <= i < |records| ==> records[i].id in all && vectors[i] == all[records[i].id]
      ensures UniqueIds(added) && (forall r :: r in added ==> r.id !in recs) ==> UniqueIds(records)
      ensures source.Some? ==> Agrees(At(env, files), rules, records, vectors)
      ensures LengthsAre(dimension, vecs, newVectors) ==> forall i :: 0 <= i < |vectors| ==> |vectors[i]| == dimension
    {
      var combined := Combine(recs, added);
      var merged := Merge(vecs, added, newVectors);
      all := merged;
      records, vectors := Align(combined, merged);
      AllHaveVectors(recs, vecs, added, newVectors, combined, all);
      if source.Some? {
        ghost var step := s.(combined := combined, all := all);
        AssembledAgrees(At(env, source.value), At(env, files), rules, step, records, vectors);
      }
    }

    /** Refresh up to the writing of the index. */
    method Update(cfg: Config, ix: Index, files: Files, fails: nat -> bool, ghost source: Option<Files>)
      returns (plan: Plan, batches: nat, ghost step: Step)
      requires Sound(env.hash) && CleanFiles(files) && ix.manifest.model == cfg.model && ix.manifest.dimensions > 0
      requires forall i :: 0 <= i < |ix.vectors| ==> |ix.vectors[i]| == ix.manifest.dimensions
      requires forall r :: r in ix.records ==> Known(env, r)
      requires source.Some? ==> CleanFiles(source.value) && AgreesWith(env, source.value, ix)
      ensures plan.Ready? ==> |plan.vectors| == |plan.records| && forall r :: r in plan.records ==> Known(env, r)
      ensures plan.Ready? && NoTwins(env, files) ==> UniqueIds(plan.records)
      ensures plan.Ready? && source.Some? ==>
        Agrees(At(env, files), RulesOf(env, cfg.model), plan.records, plan.vectors)
      ensures plan.Ready? ==> IsRefresh(env, cfg.model, files, ix, step) && plan.records == step.combined
      ensures plan.Ready? ==> Aligned(step, plan.vectors)
      ensures source == Some(files) ==> plan.Ready? && batches == 0
      ensures plan.Refused? ==> !plan.outcome.Done? && !Healthy(env, cfg, fails)
      ensures plan.Ready? && Uniform(env, cfg.model) ==>
        forall i :: 0 <= i < |plan.vectors| ==> |plan.vectors[i]| == ix.manifest.dimensions
    {
      var scan, changed, recs, vecs, added := Compare(ix, files, source);
      step := Step(ix.records, ix.vectors, changed, recs, vecs, scan, added, [], [], map[]);
      var embedded;
      embedded, batches := EmbedRecords(cfg, added, fails);
      if embedded.Failed? {
        return Refused(embedded.outcome), batches, step;
      }
      if |added| > 0 && embedded.dimensions != ix.manifest.dimensions {
        return Rebuild, batches, step;
      }
      step := Step(ix.records, ix.vectors, changed, recs, vecs, scan, added, embedded.vectors, [], map[]);
      if source.Some? { PreparedStep(env, cfg.model, source.value, files, step); }
      var records, vectors;
      ghost var all;
      records, vectors, all := Assemble(recs, vecs, added, embedded.vectors, ix.manifest.dimensions, source, files,
                                       RulesOf(env, cfg.model), step);
      PlannedLengths(env, cfg, ix, changed, recs, vecs, added, embedded.vectors);
      step := step.(combined := records, all := all);
      plan := Ready(records, vectors);
    }

    /** Refresh: embeds the records of changed files only, and falls back to Build when there is no
        index, or its vectors come from another model or have other dimensions. */
    method Refresh(cfg: Config, files: Files, fails: nat -> bool)
      returns (outcome: Outcome, batches: nat, fellBack: bool, ghost step: Step)
      requires Valid() && CleanFiles(files)
      modifies this
      ensures Valid()
      ensures !outcome.Done? ==> store == old(store) && cache == old(cache) && sources == old(sources)
      ensures outcome.Done? ==> store != [] && store == Without(old(store), Newest().manifest.id) + [Newest()]
      ensures outcome.Done? ==> Newest().manifest.model == cfg.model
      ensures outcome.Done? && !fellBack && old(store != [] && Newest().manifest.updatedAt in sources) ==> Holds(files)
      ensures outcome.Done? && fellBack && (cfg.maxRecords <= 0 || |Newest().records| < cfg.maxRecords) ==> Holds(files)
      ensures outcome.Done? && NoTwins(env, files) ==> UniqueIds(Newest().records)
      ensures cfg.enabled && (old(store) == [] || old(Newest()).manifest.model != cfg.model) ==> fellBack
      ensures cfg.enabled && old(store != [] && Holds(files) && Newest().manifest.model == cfg.model) ==>
        !fellBack && batches == 0
      ensures outcome.Done? && !fellBack ==> old(store) != [] && IsRefresh(env, cfg.model, files, old(Newest()), step)
      ensures outcome.Done? && !fellBack ==>
        Newest().records == Written(step.combined, cfg.storePreviews) && Aligned(step, Newest().vectors)
      ensures Healthy(env, cfg, fails) ==> outcome.Done?
    {
      step := Step([], [], {}, map[], map[], [], [], [], [], map[]);
      if !cfg.enabled {
        return Disabled, 0, false, step;
      }
      if store == [] || Newest().manifest.model != cfg.model {
        fellBack := true;
        outcome, batches := Build(cfg, files, fails);
        return;
      }
      fellBack := false;
      var ix := Newest();
      assert ix in store;
      ghost var source := if ix.manifest.updatedAt in sources then Some(sources[ix.manifest.updatedAt]) else None;
      var plan;
      plan, batches, step := Update(cfg, ix, files, fails, source);
      match plan
      case Refused(reason) =>
        outcome := reason;
      case Rebuild =>
        fellBack := true;
        outcome, batches := Build(cfg, files, fails);
      case Ready(records, vectors) =>
        var ok := Finish(cfg, ix, files, records, vectors, source);
        outcome := if ok then Done else Rejected;
    }

    /** The last part of a refresh: the index keeps its id and is written with its new records. */
    method Finish(cfg: Config, ix: Index, files: Files, records: seq<Record>, vectors: seq<Vector>,
                  ghost source: Option<Files>)
      returns (ok: bool)
      requires Valid() && CleanFiles(files) && Sane(env, ix) && ix.manifest.model == cfg.model
      requires |vectors| == |records| && forall r :: r in records ==> Known(env, r)
      requires source.Some? ==> Agrees(At(env, files), RulesOf(env, cfg.model), records, vectors)
      modifies this
      ensures Valid()
      ensures !ok ==> store == old(store) && cache == old(cache) && sources == old(sources)
      ensures ok ==> store != [] && store == Without(old(store), ix.manifest.id) + [Newest()]
      ensures ok ==> Newest().manifest.id == ix.manifest.id && Newest().manifest.model == cfg.model
      ensures ok && source.Some? ==> Holds(files)
      ensures ok && UniqueIds(records) ==> UniqueIds(Newest().records)
      ensures ok ==> Newest().records == Written(records, cfg.storePreviews) && Newest().vectors == vectors
      ensures Trim.TrimSpace(cfg.model) != ""
              && (forall i :: 0 <= i < |vectors| ==> |vectors[i]| == ix.manifest.dimensions)
              ==> ok
    {
      FirstOfEqual(vectors, ix.manifest.dimensions);
      var fileCount := UniqueFileCount(records);
      var manifest := ix.manifest.(model := cfg.model, dimensions := FirstDimension(vectors, ix.manifest.dimensions),
                                   storePreviews := cfg.storePreviews,
                                   recordCount := |records|, fileCount := fileCount);
      ok := Publish(manifest, records, vectors, if source.Some? then Some(files) else None);
    }

    /** loadIndexData: the cache never serves anything but the newest index. */
    method LoadIndexData() returns (records: seq<Record>, vectors: seq<Vector>)
      requires Valid() && store != []
      modifies this`cache
      ensures Valid() && records == Newest().records && vectors == Newest().vectors
    {
      var ix := Newest();
      assert ix in store;
      if cache.Some? && cache.value.manifest == ix.manifest {
        return cache.value.records, cache.value.vectors;
      }
      records, vectors := ix.records, ix.vectors;
      cache := Some(ix);
    }

    /** Clear: removes the newest index and forgets the cache. The workspace is without an index afterwards
        if and only if there was no index of another model or other dimensions. */
    method Clear()
      requires Valid()
      modifies this`store, this`cache
      ensures Valid() && cache == None
      ensures store == (if old(store) == [] then [] else Without(old(store), old(Newest()).manifest.id))
      ensures old(store) != [] ==>
        (store == [] <==> forall ix :: ix in old(store) ==> ix.manifest.id == old(Newest()).manifest.id)
    {
      if store != [] {
        ghost var id := Newest().manifest.id;
        assert Newest() in store;
        store := Without(store, Newest().manifest.id);
        assert store != [] ==> store[0] in store;
      }
      cache := None;
    }
  }

  lemma {:induction false} WithoutOther(store: seq<Index>, ix: Index, id: (string, int))
    ensures Without(store + [ix], id) == Without(store, id) + if ix.manifest.id == id then [] else [ix]
  {
    if store != [] {
      assert (store + [ix])[1..] == store[1..] + [ix];
      WithoutOther(store[1..], ix, id);
    } else {
      assert (store + [ix])[1..] == [];
    }
  }

  lemma {:induction false} OlderSurvives(store: seq<Index>, older: Index, newer: Index)
    requires older.manifest.id != newer.manifest.id
    ensures var id := newer.manifest.id;
      exists rest :: Without(Without(store + [older], id) + [newer], id) == rest + [older]
  {
    var id := newer.manifest.id;
    WithoutOther(store, older, id);
    WithoutOther(Without(store, id) + [older], newer, id);
    WithoutOther(Without(store, id), older, id);
    var rest := Without(Without(store, id), id);
    assert rest + [older] + [] == rest + [older];
  }

  /** Clearing brings an older index back: after a build with one model and a build with another, Clear
      leaves the index of the first, for all files and whatever was stored before. */
  method BuildTwiceThenClear(service: LocalService, first: Config, second: Config, files: Files, fails: nat -> bool)
    requires service.Valid() && CleanFiles(files)
    requires Healthy(service.env, first, fails) && Healthy(service.env, second, fails)
    requires Trim.TrimSpace(first.model) != Trim.TrimSpace(second.model)
    modifies service
    ensures service.Valid() && service.store != [] && service.Newest().manifest.model == first.model
  {
    var outcome, batches := service.Build(first, files, fails);
    ghost var older, before := service.Newest(), service.store;
    assert older in service.store;
    outcome, batches := service.Build(second, files, fails);
    ghost var newer := service.Newest();
    assert newer in service.store;
    assert before == before[..|before| - 1] + [older];
    OlderSurvives(before[..|before| - 1], older, newer);
    service.Clear();
  }

  lemma {:induction false} FirstDimensionGrows(vectors: seq<Vector>, vec: Vector, fallback: int)
    ensures FirstDimension(vectors + [vec], fallback) ==
            if FirstDimension(vectors, 0) != 0 then FirstDimension(vectors, 0)
            else if |vec| > 0 then |vec| else fallback
  {
    if vectors != [] {
      assert (vectors + [vec])[1..] == vectors[1..] + [vec];
      FirstDimensionGrows(vectors[1..], vec, fallback);
    } else {
      assert FirstDimension([], fallback) == fallback;
    }
  }

  lemma {:induction false} FirstDimensionFallback(vectors: seq<Vector>, fallback: int)
    ensures FirstDimension(vectors, fallback) ==
            if FirstDimension(vectors, 0) == 0 then fallback else FirstDimension(vectors, 0)
  {
    if vectors != [] { FirstDimensionFallback(vectors[1..], fallback); }
  }

  lemma {:induction false} FirstDimensionIsLength(vectors: seq<Vector>)
    ensures FirstDimension(vectors, 0) == 0
            || exists i :: 0 <= i < |vectors| && |vectors[i]| == FirstDimension(vectors, 0)
  {
    if vectors != [] && |vectors[0]| == 0 {
      FirstDimensionIsLength(vectors[1..]);
      if FirstDimension(vectors, 0) != 0 {
        var i :| 0 <= i < |vectors[1..]| && |vectors[1..][i]| == FirstDimension(vectors, 0);
        assert |vectors[i + 1]| == FirstDimension(vectors, 0);
      }
    } else if vectors != [] {
      assert |vectors[0]| == FirstDimension(vectors, 0);
    }
  }

  /** Vectors of one model all have the dimensions that are reported. */
  lemma {:induction false} FittingLengths(env: Env, model: string, records: seq<Record>, vectors: seq<Vector>,
                                          fallback: int)
    requires |vectors| == |records|
    requires forall i :: 0 <= i < |vectors| ==> vectors[i] == env.embed(model, EmbedInput(records[i]))
    ensures Uniform(env, model) && fallback > 0 ==> FirstDimension(vectors, fallback) > 0
    ensures Uniform(env, model) ==> forall i :: 0 <= i < |vectors| ==> |vectors[i]| == FirstDimension(vectors, fallback)
  {
    if Uniform(env, model) && vectors != [] {
      assert |env.embed(model, EmbedInput(records[0]))| == |env.embed(model, "")|;
      forall i | 0 <= i < |vectors| ensures |vectors[i]| == |vectors[0]| {
        assert |env.embed(model, EmbedInput(records[i]))| == |env.embed(model, EmbedInput(records[0]))|;
      }
    }
  }

  /** A full scan next to its vectors agrees with the files. */
  lemma {:induction false} ScanAgrees(env: Env, model: string, files: Files, scan: seq<Record>, vectors: seq<Vector>)
    requires Sound(env.hash) && CleanFiles(files) && ScanOf(env, files, scan) && |vectors| == |scan|
    requires forall i :: 0 <= i < |scan| ==> vectors[i] == env.embed(model, EmbedInput(scan[i]))
    ensures Agrees(At(env, files), RulesOf(env, model), scan, vectors)
  {
    var at, rules := At(env, files), RulesOf(env, model);
    forall i | 0 <= i < |scan| ensures vectors[i] == rules.vector(scan[i]) {}
    ScanIsLawful(env, model, files);
    ScanParts(env, model, files, scan);
    AgreesFrom(at, rules, scan, vectors);
  }

  lemma {:induction false} AgreesFrom(at: string -> seq<Record>, rules: Rules, scan: seq<Record>, vectors: seq<Vector>)
    requires Lawful(at, rules) && SortedBy(scan, NotAfter) && |vectors| == |scan|
    requires forall r :: r in scan ==> rules.known(r)
    requires forall r: Record :: r.kind != Folder ==> (r in scan <==> r in at(r.path))
    requires forall i :: 0 <= i < |scan| ==> vectors[i] == rules.vector(scan[i])
    ensures Agrees(at, rules, scan, vectors)
  {
    forall i | 0 <= i < |scan| && scan[i].kind != Folder ensures Right(at(scan[i].path), rules, scan[i], vectors[i]) {
      assert scan[i] in scan;
      assert Bare(scan[i]) == Bare(scan[i]);
    }
    forall p, r | r in at(p) ensures HasId(scan, r.id) {
      assert IsPlaced(rules, p, r);
      assert r in scan;
      var i :| 0 <= i < |scan| && scan[i] == r;
    }
  }

  /** What the refresh needs to know of a scan. */
  lemma {:induction false} ScanParts(env: Env, model: string, files: Files, scan: seq<Record>)
    requires Sound(env.hash) && CleanFiles(files) && ScanOf(env, files, scan)
    ensures forall r :: r in scan ==> RulesOf(env, model).known(r)
    ensures forall r: Record :: r.kind != Folder ==> (r in scan <==> r in At(env, files)(r.path))
  {
    forall r | r in scan ensures RulesOf(env, model).known(r) {
      ScanPart(env, files, r);
    }
    forall r: Record | r.kind != Folder ensures r in scan <==> r in At(env, files)(r.path) {
      if IsFolderRecord(env, Included(env, files), r) { FolderIsKnown(env, files, r); }
    }
  }

  lemma {:induction false} FirstKnown(env: Env, files: Files, scan: seq<Record>, records: seq<Record>)
    requires Sound(env.hash) && CleanFiles(files) && ScanOf(env, files, scan) && records <= scan
    ensures forall r :: r in records ==> Known(env, r)
    ensures NoTwins(env, files) ==> UniqueIds(records)
  {
    ScanKnown(env, files, scan);
    forall r | r in records ensures Known(env, r) {
      var i :| 0 <= i < |records| && records[i] == r;
      assert scan[i] == r;
    }
    if NoTwins(env, files) { FirstUnique(scan, records); }
  }

  lemma {:induction false} FirstUnique(scan: seq<Record>, records: seq<Record>)
    requires UniqueIds(scan) && records <= scan
    ensures UniqueIds(records)
  {
    assert forall i :: 0 <= i < |records| ==> records[i] == scan[i];
  }

  lemma {:induction false} ScanKnown(env: Env, files: Files, scan: seq<Record>)
    requires Sound(env.hash) && CleanFiles(files) && ScanOf(env, files, scan)
    ensures forall r :: r in scan ==> Known(env, r)
    ensures NoTwins(env, files) ==> UniqueIds(scan)
  {
    forall r | r in scan ensures Known(env, r) { ScanPart(env, files, r); }
    if NoTwins(env, files) { ScanIsUnique(env, files, scan); }
  }

  lemma {:induction false} ScanPart(env: Env, files: Files, r: Record)
    requires Sound(env.hash) && CleanFiles(files)
    requires r in RecordsAt(env, files, r.path) || IsFolderRecord(env, Included(env, files), r)
    ensures Known(env, r)
  {
    if r in RecordsAt(env, files, r.path) {
      ScannedIsKnown(env, files, r.path, r);
    } else {
      FolderIsKnown(env, files, r);
    }
  }

  lemma {:induction false} StoredAgrees(env: Env, model: string, files: Files, records: seq<Record>,
                                        vectors: seq<Vector>,
                                        storePreviews: bool)
    requires Agrees(At(env, files), RulesOf(env, model), records, vectors)
    ensures Agrees(At(env, files), RulesOf(env, model), Written(records, storePreviews), vectors)
  {
    var rules := RulesOf(env, model);
    forall r ensures rules.known(Bare(r)) == rules.known(r) { BareIsKnown(env, r); }
    WrittenAgrees(At(env, files), rules, records, vectors, storePreviews);
  }

  lemma {:induction false} PlanHolds(env: Env, cfg: Config, files: Files, scan: seq<Record>, records: seq<Record>,
                                     vectors: seq<Vector>)
    requires Sound(env.hash) && CleanFiles(files) && ScanOf(env, files, scan)
    requires records == scan[..Limited(cfg.maxRecords, |scan|)] && |vectors| == |records|
    requires forall i :: 0 <= i < |records| ==> vectors[i] == env.embed(cfg.model, EmbedInput(records[i]))
    ensures FirstOf(env, cfg.model, cfg.maxRecords, files, records, vectors)
    ensures records == scan ==> Agrees(At(env, files), RulesOf(env, cfg.model), records, vectors)
    ensures Uniform(env, cfg.model) && cfg.dimensions > 0 ==>
      FirstDimension(vectors, cfg.dimensions) > 0
      && forall i :: 0 <= i < |records| ==> |vectors[i]| == FirstDimension(vectors, cfg.dimensions)
  {
    FirstIsFirst(env, cfg, files, scan, records, vectors);
    FittingLengths(env, cfg.model, records, vectors, cfg.dimensions);
    if records == scan { ScanAgrees(env, cfg.model, files, scan, vectors); }
  }

  lemma {:induction false} FirstIsFirst(env: Env, cfg: Config, files: Files, scan: seq<Record>, records: seq<Record>,
                                        vectors: seq<Vector>)
    requires ScanOf(env, files, scan) && records == scan[..Limited(cfg.maxRecords, |scan|)]
    requires |vectors| == |records|
    requires forall i :: 0 <= i < |records| ==> vectors[i] == env.embed(cfg.model, EmbedInput(records[i]))
    ensures FirstOf(env, cfg.model, cfg.maxRecords, files, records, vectors)
  {
    assert CutOf(env, cfg.model, scan, records, vectors);
  }

  lemma {:induction false} WrittenIsFirst(env: Env, cfg: Config, files: Files, records: seq<Record>,
                                          vectors: seq<Vector>)
    requires FirstOf(env, cfg.model, cfg.maxRecords, files, records, vectors)
    ensures FirstOf(env, cfg.model, cfg.maxRecords, files, Written(records, cfg.storePreviews), vectors)
  {
    var scan :| ScanOf(env, files, scan) && CutOf(env, cfg.model, scan, records, vectors)
                && |records| == Limited(cfg.maxRecords, |scan|);
    var w := Written(records, cfg.storePreviews);
    forall i | 0 <= i < |w| ensures Bare(w[i]) == Bare(scan[i]) {
      assert Bare(Bare(records[i])) == Bare(records[i]);
    }
    assert CutOf(env, cfg.model, scan, w, vectors);
  }

  lemma {:induction false} WrittenIsKnown(env: Env, records: seq<Record>, storePreviews: bool)
    requires forall r :: r in records ==> Known(env, r)
    ensures forall r :: r in Written(records, storePreviews) ==> Known(env, r)
    ensures UniqueIds(records) ==> UniqueIds(Written(records, storePreviews))
  {
    var w := Written(records, storePreviews);
    forall r | r in w ensures Known(env, r) {
      var i :| 0 <= i < |w| && w[i] == r;
      BareIsKnown(env, records[i]);
      assert records[i] in records;
    }
  }

  lemma {:induction false} BareIsKnown(env: Env, r: Record)
    ensures Known(env, Bare(r)) == Known(env, r)
  {
  }

  /** The hashes read from the index and from the scan single out the paths whose records may differ. */
  lemma {:induction false} UnchangedPaths(env: Env, files: Files, files': Files, ix: Index, scan: seq<Record>,
                                          before: map<string, string>, after: map<string, string>)
    requires Sound(env.hash) && CleanFiles(files) && CleanFiles(files') && AgreesWith(env, files, ix)
    requires ScanOf(env, files', scan) && HashesOf(ix.records, before) && HashesOf(scan, after)
    ensures forall p :: p !in ChangedPaths(before, after) ==> At(env, files)(p) == At(env, files')(p)
    ensures files == files' ==> ChangedPaths(before, after) == {}
  {
    IndexHashes(env, files, ix, before);
    ScanHashes(env, ix.manifest.model, files', scan, after);
    forall p | p !in ChangedPaths(before, after) ensures At(env, files)(p) == At(env, files')(p) {
      UnchangedRecords(env, files, files', before, after, p);
    }
    if files == files' {
      SameHashes(p => Stamp(env, files, p), before, after);
    }
  }

  lemma {:induction false} SameHashes(stamp: string -> Option<string>, before: map<string, string>, after: map<string,
                                      string>)
    requires forall p :: stamp(p) == if p in before then Some(before[p]) else None
    requires forall p :: stamp(p) == if p in after then Some(after[p]) else None
    ensures ChangedPaths(before, after) == {}
  {
    forall p ensures p !in ChangedPaths(before, after) {
      assert stamp(p) == if p in before then Some(before[p]) else None;
      assert stamp(p) == if p in after then Some(after[p]) else None;
    }
  }

  lemma {:induction false} IndexHashes(env: Env, files: Files, ix: Index, m: map<string, string>)
    requires Sound(env.hash) && CleanFiles(files) && AgreesWith(env, files, ix) && HashesOf(ix.records, m)
    ensures forall p :: Stamp(env, files, p) == if p in m then Some(m[p]) else None
  {
    var rules, stamp := RulesOf(env, ix.manifest.model), p => Stamp(env, files, p);
    ScanIsLawful(env, ix.manifest.model, files);
    IdsTell(env, ix.manifest.model);
    ScanIsStamped(env, files);
    StoredHashes(At(env, files), rules, stamp, ix.records, ix.vectors, m);
    forall p ensures Stamp(env, files, p) == if p in m then Some(m[p]) else None {
      assert stamp(p) == Stamp(env, files, p);
    }
  }

  lemma {:induction false} ScanHashes(env: Env, model: string, files: Files, scan: seq<Record>, m: map<string, string>)
    requires Sound(env.hash) && CleanFiles(files) && ScanOf(env, files, scan) && HashesOf(scan, m)
    ensures forall p :: Stamp(env, files, p) == if p in m then Some(m[p]) else None
  {
    var stamp := p => Stamp(env, files, p);
    ScanIsLawful(env, model, files);
    ScanParts(env, model, files, scan);
    ScanIsStamped(env, files);
    ScannedHashes(At(env, files), stamp, scan, m);
    forall p ensures Stamp(env, files, p) == if p in m then Some(m[p]) else None {
      assert stamp(p) == Stamp(env, files, p);
    }
  }

  lemma {:induction false} PreparedStep(env: Env, model: string, files: Files, files': Files, s: Step)
    requires Sound(env.hash) && CleanFiles(files) && CleanFiles(files')
    requires Agrees(At(env, files), RulesOf(env, model), s.records, s.vectors)
    requires forall p :: p !in s.changed ==> At(env, files)(p) == At(env, files')(p)
    requires ScanOf(env, files', s.scan) && Kept(s.records, s.vectors, s.changed, s.recs, s.vecs)
    requires forall r :: r in s.added <==> r in s.scan && r.path in s.changed
    requires |s.newVectors| == |s.added|
    requires forall i :: 0 <= i < |s.added| ==> s.newVectors[i] == env.embed(model, EmbedInput(s.added[i]))
    ensures Prepared(At(env, files), At(env, files'), RulesOf(env, model), s)
  {
    ScanIsLawful(env, model, files');
    IdsTell(env, model);
    ScanParts(env, model, files', s.scan);
    var rules := RulesOf(env, model);
    forall i | 0 <= i < |s.added| ensures s.newVectors[i] == rules.vector(s.added[i]) {}
  }

  lemma {:induction false} AssembledAgrees(at: string -> seq<Record>, at': string -> seq<Record>, rules: Rules, s: Step,
                                           records: seq<Record>, vectors: seq<Vector>)
    requires StepOk(at, at', rules, s) && |vectors| == |records|
    requires (forall r :: r in s.combined ==> r.id in s.all) ==> records == s.combined
    requires forall i :: 0 <= i < |records| ==> records[i].id in s.all && vectors[i] == s.all[records[i].id]
    ensures Agrees(at', rules, records, vectors)
  {
    forall r | r in s.combined ensures r.id in s.all { CombinedIsRight(at, at', rules, s, r); }
    RefreshAgrees(at, at', rules, s, vectors);
  }

  lemma {:induction false} KeptLengths(ix: Index, changed: set<string>, recs: map<string, Record>, vecs: map<string,
                                       Vector>)
    requires Kept(ix.records, ix.vectors, changed, recs, vecs)
    requires forall i :: 0 <= i < |ix.vectors| ==> |ix.vectors[i]| == ix.manifest.dimensions
    ensures forall id :: id in vecs ==> |vecs[id]| == ix.manifest.dimensions
  {
  }

  /** Kept and new vectors have the index's dimensions. */
  lemma {:induction false} PlannedLengths(env: Env, cfg: Config, ix: Index, changed: set<string>, recs: map<string,
                                          Record>,
                                          vecs: map<string, Vector>, added: seq<Record>, newVectors: seq<Vector>)
    requires Kept(ix.records, ix.vectors, changed, recs, vecs) && |newVectors| == |added|
    requires forall i :: 0 <= i < |ix.vectors| ==> |ix.vectors[i]| == ix.manifest.dimensions
    requires forall i :: 0 <= i < |newVectors| ==> newVectors[i] == env.embed(cfg.model, EmbedInput(added[i]))
    requires |added| > 0 ==> FirstDimension(newVectors, cfg.dimensions) == ix.manifest.dimensions
    ensures Uniform(env, cfg.model) ==> LengthsAre(ix.manifest.dimensions, vecs, newVectors)
  {
    KeptLengths(ix, changed, recs, vecs);
    FittingLengths(env, cfg.model, added, newVectors, cfg.dimensions);
  }

  lemma {:induction false} FirstOfEqual(vectors: seq<Vector>, d: int)
    requires d > 0
    ensures (forall i :: 0 <= i < |vectors| ==> |vectors[i]| == d) ==> FirstDimension(vectors, d) == d
  {
  }

  /** A refreshed index and a freshly built one agree: both hold the ids of a full scan, leaving folders
      aside, and each id has the vector of its own text. */
  lemma {:induction false} RefreshedEqualsBuilt(env: Env, files: Files, a: Index, b: Index, id: string, vec: Vector)
    requires Sound(env.hash) && CleanFiles(files) && AgreesWith(env, files, a) && AgreesWith(env, files, b)
    requires a.manifest.model == b.manifest.model
    ensures Stores(a.records, a.vectors, id, vec) <==> Stores(b.records, b.vectors, id, vec)
  {
    var at, rules := At(env, files), RulesOf(env, a.manifest.model);
    ScanIsLawful(env, a.manifest.model, files);
    IdsTell(env, a.manifest.model);
    AgreementIsExact(at, rules, a.records, a.vectors, id, vec);
    AgreementIsExact(at, rules, b.records, b.vectors, id, vec);
  }

  // ----- Unique ids in the stored index -----

  lemma {:induction false} KeptById(ix: Index, changed: set<string>, recs: map<string, Record>, vecs: map<string,
                                    Vector>)
    requires Kept(ix.records, ix.vectors, changed, recs, vecs)
    ensures forall id :: id in recs ==> recs[id].id == id && recs[id] in ix.records && recs[id].path !in changed
  {
    forall id | id in recs ensures recs[id].id == id && recs[id] in ix.records && recs[id].path !in changed {
      assert IsKept(ix.records, ix.vectors, changed, id, recs[id], vecs[id]);
    }
  }

  lemma {:induction false} KeptAreKnown(env: Env, ix: Index, changed: set<string>, recs: map<string, Record>,
                                        vecs: map<string, Vector>)
    requires Kept(ix.records, ix.vectors, changed, recs, vecs) && forall r :: r in ix.records ==> Known(env, r)
    ensures forall id :: id in recs ==> recs[id].id == id && Known(env, recs[id])
  {
    KeptById(ix, changed, recs, vecs);
  }

  /** No new record has the id of a kept one, and new records are known and, without twins, unique. */
  lemma {:induction false} KeptApart(env: Env, ix: Index, files: Files, scan: seq<Record>,
                                     changed: set<string>, recs: map<string, Record>, vecs: map<string, Vector>,
                                     added: seq<Record>)
    requires Sound(env.hash) && CleanFiles(files) && ScanOf(env, files, scan) && added == Select(scan, changed)
    requires Kept(ix.records, ix.vectors, changed, recs, vecs) && forall r :: r in ix.records ==> Known(env, r)
    ensures forall r :: r in added ==> Known(env, r) && r.id !in recs
    ensures NoTwins(env, files) ==> UniqueIds(added)
  {
    KeptById(ix, changed, recs, vecs);
    forall r | r in added ensures Known(env, r) && r.id !in recs {
      ScannedKinds(env, files, r);
      if r.id in recs { SameId(env.hash, r, recs[r.id]); }
    }
    if NoTwins(env, files) {
      ScanIsUnique(env, files, scan);
      SelectUnique(scan, changed);
    }
  }

  lemma {:induction false} AllHaveVectors(recs: map<string, Record>, vecs: map<string, Vector>, added: seq<Record>,
                                          vectors: seq<Vector>, combined: seq<Record>, all: map<string, Vector>)
    requires recs.Keys == vecs.Keys && forall id :: id in recs ==> recs[id].id == id
    requires Combined(recs, added, combined) && Merged(vecs, added, vectors, all)
    ensures forall r :: r in combined ==> r.id in all
  {
    forall r | r in combined ensures r.id in all {
      if r in added {
        var i :| 0 <= i < |added| && added[i] == r;
        assert HasId(added, r.id);
      }
    }
  }

  /** So the ranking theorem applies to what Build and Refresh store: on a stored index with unique ids the
      narrowed ranking is the full one restricted to the candidates. */
  lemma {:induction false} StoredIndexRanks(env: Env, q: Rank.Query, ix: Index)
    requires Sane(env, ix) && UniqueIds(ix.records)
    ensures Rank.InRange(Rank.Candidates(q, ix.records), |ix.records|)
    ensures var all, some := Rank.Everything(|ix.records|), Rank.Candidates(q, ix.records);
      Rank.Ranked(q, ix.records, ix.vectors, some)
      == Rank.Restrict(Rank.Ranked(q, ix.records, ix.vectors, all), Rank.IdsOf(ix.records, some))
  {
    Rank.ScoringRefinesFullRanking(q, ix.records, ix.vectors);
  }
}
