/** Ranking the records of the index against a query, on all of them or on a narrowed set of
    candidates, and picking varied hits (internal/semantic/search.go). */
module Ranking {
  import opened Options
  import opened Ordering
  import opened Records

  const LIGHT_MAX_CANDIDATES := 512

  datatype Hit = Hit(record: Record, score: real, reason: string)

  /** One query: the similarity of each vector (None when the dimensions differ), the lexical score of
      each record, and the paths that the user named and that the current turn touched. */
  datatype Query = Query(similarity: Vector -> Option<real>, lexical: Record -> real, hasTerms: bool,
                         lexicalWeight: real, explicit: set<string>, currentTurn: set<string>,
                         useCurrentPathWeight: bool, dirName: string -> string)

  // ----- Candidates -----

  function DirOf(q: Query, path: string): string {
    NormalizeRelPath(q.dirName(path))
  }

  /** relatedDirSet. */
  function RelatedDirs(q: Query): set<string> {
    set p | p in q.explicit + q.currentTurn && DirOf(q, p) != "." && DirOf(q, p) != "" :: DirOf(q, p)
  }

  datatype Standing = Forced | Related | Lexical | Unrelated

  function StandingOf(q: Query, rec: Record): Standing {
    var path := NormalizeRelPath(rec.path);
    if path in q.explicit || path in q.currentTurn then Forced
    else if DirOf(q, path) != "." && DirOf(q, path) != "" && DirOf(q, path) in RelatedDirs(q) then Related
    else if q.hasTerms && q.lexical(rec) > 0.0 then Lexical
    else Unrelated
  }

  /** The indices below n with a property, in order. */
  function Positions(n: nat, holds: nat -> bool): (r: seq<nat>)
    ensures forall i: nat :: i in r <==> i < n && holds(i)
    ensures forall a, b :: 0 <= a < b < |r| ==> r[a] < r[b]
    ensures |r| <= n
  {
    if n == 0 then []
    else
      var rest := Positions(n - 1, holds);
      assert forall a :: 0 <= a < |rest| ==> rest[a] in rest;
      if holds(n - 1) then rest + [n - 1] else rest
  }

  function StandingAt(q: Query, records: seq<Record>): nat -> Standing {
    (i: nat) => if i < |records| then StandingOf(q, records[i]) else Unrelated
  }

  function Having(standing: nat -> Standing, s: Standing): nat -> bool {
    (i: nat) => standing(i) == s
  }

  predicate InRange(indices: seq<nat>, n: nat) {
    forall k :: 0 <= k < |indices| ==> indices[k] < n
  }

  function Everything(n: nat): seq<nat> {
    Positions(n, (i: nat) => true)
  }

  function AtMost<T>(xs: seq<T>, n: nat): seq<T> {
    if |xs| <= n then xs else xs[..n]
  }

  /** The candidates: forced ones first, then related and lexical ones, cut at the limit; all of the
      records when the ranking is not narrowed, or finds no candidate. */
  function Candidates(q: Query, records: seq<Record>): seq<nat> {
    var found := Found(|records|, StandingAt(q, records));
    if !q.useCurrentPathWeight || found == [] then Everything(|records|) else AtMost(found, LIGHT_MAX_CANDIDATES)
  }

  function Found(n: nat, standing: nat -> Standing): seq<nat> {
    Positions(n, Having(standing, Forced)) + Positions(n, Having(standing, Related))
    + Positions(n, Having(standing, Lexical))
  }

  /** allRecordIndices. */
  method AllRecordIndices(n: nat) returns (out: seq<nat>)
    ensures out == Everything(n)
  {
    out := [];
    for i := 0 to n
      invariant out == Everything(i)
    {
      out := out + [i];
    }
  }

  /** appendBounded. */
  method AppendBounded(before: seq<nat>, src: seq<nat>) returns (out: seq<nat>)
    requires |before| <= LIGHT_MAX_CANDIDATES
    ensures out == AtMost(before + src, LIGHT_MAX_CANDIDATES)
  {
    out := before;
    for i := 0 to |src|
      invariant out == before + src[..i] && |out| <= LIGHT_MAX_CANDIDATES
    {
      if |out| >= LIGHT_MAX_CANDIDATES {
        assert out == (before + src)[..LIGHT_MAX_CANDIDATES];
        return;
      }
      out := out + [src[i]];
    }
    assert src[..|src|] == src;
  }

  /** scoreCandidateIndices. */
  method ScoreCandidateIndices(q: Query, records: seq<Record>) returns (out: seq<nat>)
    ensures out == Candidates(q, records)
  {
    if !q.useCurrentPathWeight {
      out := AllRecordIndices(|records|);
      return;
    }
    if records == [] {
      return [];
    }
    var forced, related, lexical := Classify(|records|, StandingAt(q, records));
    out := AppendBounded([], forced);
    out := AppendBounded(out, related);
    out := AppendBounded(out, lexical);
    BoundedInTurn(forced, related, lexical, LIGHT_MAX_CANDIDATES);
    if out == [] {
      out := AllRecordIndices(|records|);
    }
  }

  /** The loop over the records that sorts them by standing. */
  method Classify(n: nat, standing: nat -> Standing) returns (forced: seq<nat>, related: seq<nat>, lexical: seq<nat>)
    ensures forced == Positions(n, Having(standing, Forced))
    ensures related == Positions(n, Having(standing, Related))
    ensures lexical == Positions(n, Having(standing, Lexical))
  {
    forced, related, lexical := [], [], [];
    for i := 0 to n
      invariant forced == Positions(i, Having(standing, Forced))
      invariant related == Positions(i, Having(standing, Related))
      invariant lexical == Positions(i, Having(standing, Lexical))
    {
      match standing(i)
      case Forced => forced := forced + [i];
      case Related => related := related + [i];
      case Lexical => lexical := lexical + [i];
      case Unrelated =>
    }
  }

  lemma {:induction false} BoundedInTurn(a: seq<nat>, b: seq<nat>, c: seq<nat>, n: nat)
    ensures AtMost(AtMost(AtMost([] + a, n) + b, n) + c, n) == AtMost(a + b + c, n)
  {
    assert [] + a == a;
    var ab := AtMost(AtMost(a, n) + b, n);
    assert ab == AtMost(a + b, n);
    assert AtMost(ab + c, n) == AtMost(a + b + c, n);
  }

  // ----- What the candidates promise -----

  lemma {:induction false} NoRepeatsConcat<T>(xs: seq<T>, ys: seq<T>)
    requires NoRepeats(xs) && NoRepeats(ys) && forall x :: x in xs ==> x !in ys
    ensures NoRepeats(xs + ys)
  {
    var s := xs + ys;
    forall a, b | 0 <= a < b < |s| ensures s[a] != s[b] {
      if a < |xs| <= b { assert s[a] in xs && s[b] in ys; }
    }
  }

  lemma {:induction false} FoundHolds(n: nat, standing: nat -> Standing)
    ensures NoRepeats(Found(n, standing)) && InRange(Found(n, standing), n)
  {
    var forced, related, lexical := Positions(n, Having(standing, Forced)), Positions(n, Having(standing, Related)),
                                    Positions(n, Having(standing, Lexical));
    NoRepeatsConcat(forced, related);
    NoRepeatsConcat(forced + related, lexical);
    forall k | 0 <= k < |Found(n, standing)| ensures Found(n, standing)[k] < n {
      var i := Found(n, standing)[k];
      assert i in forced || i in related || i in lexical;
    }
  }

  /** The records that the user named or the current turn touched. */
  function ForcedIndices(q: Query, records: seq<Record>): seq<nat> {
    Positions(|records|, Having(StandingAt(q, records), Forced))
  }

  lemma {:induction false} ForcedIsCandidate(q: Query, records: seq<Record>, found: seq<nat>, forced: seq<nat>, i: nat)
    requires found == Found(|records|, StandingAt(q, records)) && forced == ForcedIndices(q, records)
    requires |forced| <= LIGHT_MAX_CANDIDATES && i in forced
    ensures i in Candidates(q, records)
  {
    var k :| 0 <= k < |forced| && forced[k] == i;
    assert found[k] == i && AtMost(found, LIGHT_MAX_CANDIDATES)[k] == i;
    EverythingHolds(|records|);
  }

  /** No record is a candidate twice; narrowing leaves at most the limit, and as long as they fit under
      it, every forced record; there is a candidate whenever there is a record. */
  lemma {:induction false} CandidatesHold(q: Query, records: seq<Record>)
    ensures NoRepeats(Candidates(q, records)) && InRange(Candidates(q, records), |records|)
    ensures records != [] ==> Candidates(q, records) != []
    ensures |Candidates(q, records)| <= LIGHT_MAX_CANDIDATES || Candidates(q, records) == Everything(|records|)
    ensures |ForcedIndices(q, records)| <= LIGHT_MAX_CANDIDATES ==>
      forall i: nat :: i in ForcedIndices(q, records) ==> i in Candidates(q, records)
  {
    var n, standing := |records|, StandingAt(q, records);
    var found, forced := Found(n, standing), ForcedIndices(q, records);
    FoundHolds(n, standing);
    EverythingHolds(n);
    if |forced| <= LIGHT_MAX_CANDIDATES {
      forall i: nat | i in forced ensures i in Candidates(q, records) {
        ForcedIsCandidate(q, records, found, forced, i);
      }
    }
  }

  /** The user named the record's path, or the current turn touched it. */
  predicate Named(q: Query, r: Record) {
    NormalizeRelPath(r.path) in q.explicit + q.currentTurn
  }

  /** The record lies in the directory of such a path, below the root. */
  predicate Near(q: Query, r: Record) {
    var dir := DirOf(q, NormalizeRelPath(r.path));
    dir != "." && dir != "" && exists p :: p in q.explicit + q.currentTurn && DirOf(q, p) == dir
  }

  /** The record shares a word with the query. */
  predicate Worded(q: Query, r: Record) {
    q.hasTerms && q.lexical(r) > 0.0
  }

  predicate IsFound(q: Query, r: Record) {
    Named(q, r) || Near(q, r) || Worded(q, r)
  }

  /** No better reason speaks for s than for r. */
  predicate NoLess(q: Query, r: Record, s: Record) {
    (Named(q, s) ==> Named(q, r)) && (Near(q, s) ==> Named(q, r) || Near(q, r))
  }

  lemma {:induction false} StandingIs(q: Query, r: Record)
    ensures StandingOf(q, r) == (if Named(q, r) then Forced else if Near(q, r) then Related
                                 else if Worded(q, r) then Lexical else Unrelated)
  {
  }

  lemma {:induction false} FoundIs(q: Query, records: seq<Record>, i: nat)
    ensures i in Found(|records|, StandingAt(q, records)) <==> i < |records| && IsFound(q, records[i])
  {
    var n, standing := |records|, StandingAt(q, records);
    if i < n { StandingIs(q, records[i]); }
    assert i in Found(n, standing) <==>
      i in Positions(n, Having(standing, Forced)) || i in Positions(n, Having(standing, Related))
      || i in Positions(n, Having(standing, Lexical));
  }

  /** In the list of all found records the better reasons come first. */
  lemma {:induction false} FoundInOrder(q: Query, records: seq<Record>, k: nat, l: nat)
    requires var found := Found(|records|, StandingAt(q, records));
      k < l < |found| && found[k] < |records| && found[l] < |records|
    ensures var found := Found(|records|, StandingAt(q, records));
      NoLess(q, records[found[k]], records[found[l]])
  {
    var n, standing := |records|, StandingAt(q, records);
    var forced, related, lexical := Positions(n, Having(standing, Forced)), Positions(n, Having(standing, Related)),
                                    Positions(n, Having(standing, Lexical));
    var found := Found(n, standing);
    StandingIs(q, records[found[k]]);
    StandingIs(q, records[found[l]]);
    assert k < |forced| ==> found[k] in forced;
    assert |forced| <= l < |forced| + |related| ==> found[l] in related;
    assert |forced| <= k < |forced| + |related| ==> found[k] in related;
    assert l >= |forced| + |related| ==> found[l] in lexical;
  }

  /** Which records are scored: all of them, unless the ranking is narrowed and finds some; then the found
      ones, and if those are too many, the ones with the better reasons. */
  lemma {:induction false} CandidatesAre(q: Query, records: seq<Record>, i: nat)
    requires i < |records|
    ensures !q.useCurrentPathWeight || (forall k :: 0 <= k < |records| ==> !IsFound(q, records[k]))
            ==> i in Candidates(q, records)
    ensures q.useCurrentPathWeight && (exists k :: 0 <= k < |records| && IsFound(q, records[k])) ==>
      && (i in Candidates(q, records) ==> IsFound(q, records[i]))
      && (IsFound(q, records[i]) && i !in Candidates(q, records) ==>
            && |Candidates(q, records)| == 512
            && forall c: nat :: c in Candidates(q, records) && c < |records| ==> NoLess(q, records[c], records[i]))
  {
    var found, cs := Found(|records|, StandingAt(q, records)), Candidates(q, records);
    EverythingHolds(|records|);
    FoundIs(q, records, i);
    if found == [] {
      forall k | 0 <= k < |records| ensures !IsFound(q, records[k]) { FoundIs(q, records, k); }
    } else {
      assert found[0] in found;
      FoundHolds(|records|, StandingAt(q, records));
      FoundIs(q, records, found[0]);
      if q.useCurrentPathWeight {
        assert forall c :: c in cs ==> c in found;
        if i in found && i !in cs { LeftOutIsLess(q, records, found, cs, i); }
      }
    }
  }

  lemma {:induction false} LeftOutIsLess(q: Query, records: seq<Record>, found: seq<nat>, cs: seq<nat>, i: nat)
    requires found == Found(|records|, StandingAt(q, records)) && InRange(found, |records|)
    requires cs == AtMost(found, LIGHT_MAX_CANDIDATES) && i < |records| && i in found && i !in cs
    ensures |cs| == 512
    ensures forall c: nat :: c in cs && c < |records| ==> NoLess(q, records[c], records[i])
  {
    var l :| 0 <= l < |found| && found[l] == i;
    forall m | 0 <= m < |cs| ensures found[m] in cs { assert cs[m] == found[m]; }
    forall c: nat | c in cs && c < |records| ensures NoLess(q, records[c], records[i]) {
      var k :| 0 <= k < |cs| && cs[k] == c;
      assert found[k] == c;
      FoundInOrder(q, records, k, l);
    }
  }

  lemma {:induction false} EverythingHolds(n: nat)
    ensures NoRepeats(Everything(n)) && InRange(Everything(n), n) && |Everything(n)| <= n
    ensures forall i: nat :: i in Everything(n) <==> i < n
    ensures n > 0 ==> Everything(n) != []
  {
    forall k | 0 <= k < |Everything(n)| ensures Everything(n)[k] < n {
      assert Everything(n)[k] in Everything(n);
    }
    if n > 0 { assert 0 in Everything(n); }
  }

  // ----- Hits -----

  function ScoreOf(q: Query, rec: Record, similarity: real): Hit {
    var lex := q.lexical(rec);
    var named := rec.path in q.explicit;
    var touched := q.useCurrentPathWeight && NormalizeRelPath(rec.path) in q.currentTurn;
    Hit(rec,
        similarity + q.lexicalWeight * lex + (if named then 0.35 else 0.0) + (if touched then 0.25 else 0.0),
        (if lex > 0.0 then "vector+lexical" else "vector") + (if named then "+explicit" else "")
        + (if touched then "+current_turn" else ""))
  }

  /** The hit of one record; None when its vector cannot be compared with the query's. */
  function HitOf(q: Query, records: seq<Record>, vectors: seq<Vector>, i: nat): Option<Hit>
    requires i < |records| == |vectors|
  {
    match q.similarity(vectors[i])
    case None => None
    case Some(x) => Some(ScoreOf(q, records[i], x))
  }

  function HitsOf(q: Query, records: seq<Record>, vectors: seq<Vector>, indices: seq<nat>): (hits: seq<Hit>)
    requires |records| == |vectors| && InRange(indices, |records|)
    ensures forall h :: h in hits <==>
                        exists k :: 0 <= k < |indices| && HitOf(q, records, vectors, indices[k]) == Some(h)
  {
    if indices == [] then []
    else
      var last := |indices| - 1;
      var rest := HitsOf(q, records, vectors, indices[..last]);
      match HitOf(q, records, vectors, indices[last])
      case None => rest
      case Some(h) => rest + [h]
  }

  /** The comparison of the final sort. */
  predicate Better(a: Hit, b: Hit) {
    if a.score != b.score then a.score > b.score
    else if a.record.path != b.record.path then Before(a.record.path, b.record.path)
    else if a.record.startLine != b.record.startLine then a.record.startLine < b.record.startLine
    else Before(a.record.id, b.record.id)
  }

  predicate NotWorse(a: Hit, b: Hit) {
    !Better(b, a)
  }

  lemma {:induction false} NotWorseOrders()
    ensures Total(NotWorse) && Transitive(NotWorse)
  {
    forall a: Hit, b: Hit ensures NotWorse(a, b) || NotWorse(b, a) {
      BeforeSeparates(a.record.path, b.record.path);
      BeforeSeparates(a.record.id, b.record.id);
    }
    forall a: Hit, b: Hit, c: Hit | NotWorse(a, b) && NotWorse(b, c) ensures NotWorse(a, c) {
      ThreeStrings(a.record.path, b.record.path, c.record.path);
      ThreeStrings(a.record.id, b.record.id, c.record.id);
    }
  }

  function Ranked(q: Query, records: seq<Record>, vectors: seq<Vector>, indices: seq<nat>): seq<Hit>
    requires |records| == |vectors| && InRange(indices, |records|)
  {
    Sort(HitsOf(q, records, vectors, indices), NotWorse)
  }

  lemma {:induction false} HitsStep(q: Query, records: seq<Record>, vectors: seq<Vector>, indices: seq<nat>, k: nat)
    requires |records| == |vectors| && InRange(indices, |records|) && k < |indices|
    ensures HitsOf(q, records, vectors, indices[..k + 1]) == HitsOf(q, records, vectors, indices[..k])
            + (var hit := HitOf(q, records, vectors, indices[k]); if hit.Some? then [hit.value] else [])
  {
    assert indices[..k + 1][..k] == indices[..k];
  }

  /** The i-th record as a hit: the similarity of its vector, the weighted lexical score, 0.35 when the user
      named its path and 0.25 when the current turn touched it. */
  predicate IsHit(q: Query, records: seq<Record>, vectors: seq<Vector>, i: nat, h: Hit)
    requires i < |records| == |vectors|
  {
    var r, x := records[i], q.similarity(vectors[i]);
    var named := r.path in q.explicit;
    var touched := q.useCurrentPathWeight && NormalizeRelPath(r.path) in q.currentTurn;
    && h.record == r && x.Some?
    && h.score - x.value - q.lexicalWeight * q.lexical(r)
       == (if named && touched then 0.6 else if named then 0.35 else if touched then 0.25 else 0.0)
    && h.reason == (if q.lexical(r) > 0.0 then "vector+lexical" else "vector") + (if named then "+explicit" else "")
                   + (if touched then "+current_turn" else "")
  }

  /** The better score comes first; of equal scores the path, the start line and the id decide. */
  predicate BestFirst(hits: seq<Hit>) {
    forall i, j :: 0 <= i < j < |hits| ==> InPlace(hits[i], hits[j])
  }

  predicate InPlace(a: Hit, b: Hit) {
    || a.score > b.score
    || (a.score == b.score && Before(a.record.path, b.record.path))
    || (a.score == b.score && a.record.path == b.record.path && a.record.startLine < b.record.startLine)
    || (a.score == b.score && a.record.path == b.record.path && a.record.startLine == b.record.startLine
        && (Before(a.record.id, b.record.id) || a.record.id == b.record.id))
  }

  lemma {:induction false} RankedIsBestFirst(q: Query, records: seq<Record>, vectors: seq<Vector>, indices: seq<nat>)
    requires |records| == |vectors| && InRange(indices, |records|)
    ensures BestFirst(Ranked(q, records, vectors, indices))
  {
    var hits := Ranked(q, records, vectors, indices);
    NotWorseOrders();
    SortSorts(HitsOf(q, records, vectors, indices), NotWorse);
    forall i, j | 0 <= i < j < |hits| ensures InPlace(hits[i], hits[j]) {
      assert NotWorse(hits[i], hits[j]);
      BeforeSeparates(hits[i].record.path, hits[j].record.path);
      BeforeSeparates(hits[i].record.id, hits[j].record.id);
    }
  }

  /** Which record each hit stands for: no record twice, and no candidate with a similarity left out. */
  ghost predicate HitsFrom(q: Query, records: seq<Record>, vectors: seq<Vector>, indices: seq<nat>, from: seq<nat>,
                           hits: seq<Hit>)
    requires |records| == |vectors| && InRange(indices, |records|)
  {
    && |from| == |hits| && NoRepeats(from)
    && (forall k :: 0 <= k < |hits| ==> from[k] in indices && IsHit(q, records, vectors, from[k], hits[k]))
    && (forall i: nat :: i in indices && q.similarity(vectors[i]).Some? ==> i in from)
  }

  /** The places of the hits, before they are sorted. */
  function FoundAt(q: Query, records: seq<Record>, vectors: seq<Vector>, indices: seq<nat>): seq<nat>
    requires |records| == |vectors| && InRange(indices, |records|)
  {
    if indices == [] then []
    else
      var last := |indices| - 1;
      FoundAt(q, records, vectors, indices[..last])
      + if q.similarity(vectors[indices[last]]).Some? then [indices[last]] else []
  }

  lemma {:induction false} NewPlace(q: Query, records: seq<Record>, vectors: seq<Vector>, indices: seq<nat>, i: nat,
                                    from: seq<nat>, hits: seq<Hit>)
    requires |records| == |vectors| && InRange(indices, |records|) && NoRepeats(indices + [i])
    requires HitsFrom(q, records, vectors, indices, from, hits)
    ensures i !in from && NoRepeats(from + [i])
  {
    var all := indices + [i];
    assert all[|indices|] == i && forall m :: 0 <= m < |indices| ==> indices[m] == all[m] != all[|indices|];
  }

  lemma {:induction false} FoundOneMore(q: Query, records: seq<Record>, vectors: seq<Vector>, indices: seq<nat>,
                                        i: nat, from: seq<nat>, hits: seq<Hit>, h: Hit)
    requires |records| == |vectors| && InRange(indices + [i], |records|) && InRange(indices, |records|)
    requires i < |records| && HitsFrom(q, records, vectors, indices, from, hits) && NoRepeats(from + [i])
    requires IsHit(q, records, vectors, i, h)
    ensures HitsFrom(q, records, vectors, indices + [i], from + [i], hits + [h])
  {
    var places, more := from + [i], hits + [h];
    forall k | 0 <= k < |more| ensures places[k] in indices + [i] && IsHit(q, records, vectors, places[k], more[k]) {
      if k < |hits| { assert places[k] == from[k] && more[k] == hits[k]; }
    }
    forall m: nat | m in indices + [i] && q.similarity(vectors[m]).Some? ensures m in places {
      if m != i { assert m in indices && m in from; } else { assert places[|from|] == i; }
    }
  }

  lemma {:induction false} FoundNoMore(q: Query, records: seq<Record>, vectors: seq<Vector>, indices: seq<nat>,
                                       i: nat, from: seq<nat>, hits: seq<Hit>)
    requires |records| == |vectors| && InRange(indices + [i], |records|) && InRange(indices, |records|)
    requires i < |records| && HitsFrom(q, records, vectors, indices, from, hits) && q.similarity(vectors[i]).None?
    ensures HitsFrom(q, records, vectors, indices + [i], from, hits)
  {
    forall k | 0 <= k < |hits| ensures from[k] in indices + [i] { assert from[k] in indices; }
  }

  lemma {:induction false} ScoredIsHit(q: Query, records: seq<Record>, vectors: seq<Vector>, i: nat, x: real)
    requires i < |records| == |vectors| && q.similarity(vectors[i]) == Some(x)
    ensures IsHit(q, records, vectors, i, ScoreOf(q, records[i], x))
  {
  }

  lemma {:induction false} FoundFrom(q: Query, records: seq<Record>, vectors: seq<Vector>, indices: seq<nat>)
    requires |records| == |vectors| && InRange(indices, |records|) && NoRepeats(indices)
    ensures HitsFrom(q, records, vectors, indices, FoundAt(q, records, vectors, indices),
                     HitsOf(q, records, vectors, indices))
  {
    if indices != [] {
      var last := |indices| - 1;
      var before := indices[..last];
      FoundFrom(q, records, vectors, before);
      assert indices == before + [indices[last]];
      var i, from, hits := indices[last], FoundAt(q, records, vectors, before), HitsOf(q, records, vectors, before);
      match q.similarity(vectors[i]) {
        case None => FoundNoMore(q, records, vectors, before, i, from, hits);
        case Some(x) =>
          NewPlace(q, records, vectors, before, i, from, hits);
          ScoredIsHit(q, records, vectors, i, x);
          FoundOneMore(q, records, vectors, before, i, from, hits, ScoreOf(q, records[i], x));
      }
    }
  }

  lemma {:induction false} SortedFrom(q: Query, records: seq<Record>, vectors: seq<Vector>, indices: seq<nat>,
                                      found: seq<Hit>, from: seq<nat>, hits: seq<Hit>) returns (places: seq<nat>)
    requires |records| == |vectors| && InRange(indices, |records|)
    requires HitsFrom(q, records, vectors, indices, from, found) && multiset(found) == multiset(hits)
    ensures HitsFrom(q, records, vectors, indices, places, hits)
  {
    var moved := PlacesOf(found, hits);
    places := seq(|hits|, k requires 0 <= k < |hits| => from[moved[k]]);
    forall i: nat | i in indices && q.similarity(vectors[i]).Some? ensures i in places {
      var m :| 0 <= m < |from| && from[m] == i;
      assert m in moved;
      var k :| 0 <= k < |moved| && moved[k] == m;
      assert places[k] == i;
    }
  }

  ghost predicate StandFor(q: Query, records: seq<Record>, vectors: seq<Vector>, indices: seq<nat>, hits: seq<Hit>)
    requires |records| == |vectors| && InRange(indices, |records|)
  {
    exists from :: HitsFrom(q, records, vectors, indices, from, hits)
  }

  lemma {:induction false} SortedStandFor(q: Query, records: seq<Record>, vectors: seq<Vector>, indices: seq<nat>,
                                          found: seq<Hit>)
    requires |records| == |vectors| && InRange(indices, |records|) && NoRepeats(indices)
    requires found == HitsOf(q, records, vectors, indices)
    ensures StandFor(q, records, vectors, indices, Sort(found, NotWorse))
  {
    FoundFrom(q, records, vectors, indices);
    var places := SortedFrom(q, records, vectors, indices, found, FoundAt(q, records, vectors, indices),
                             Sort(found, NotWorse));
    assert HitsFrom(q, records, vectors, indices, places, Sort(found, NotWorse));
  }

  method ScoreCandidates(q: Query, records: seq<Record>, vectors: seq<Vector>, candidates: seq<nat>)
    returns (found: seq<Hit>)
    requires |records| == |vectors| && InRange(candidates, |records|)
    ensures found == HitsOf(q, records, vectors, candidates)
  {
    found := [];
    for k := 0 to |candidates|
      invariant found == HitsOf(q, records, vectors, candidates[..k])
    {
      HitsStep(q, records, vectors, candidates, k);
      var hit := HitOf(q, records, vectors, candidates[k]);
      if hit.Some? {
        found := found + [hit.value];
      }
    }
    assert candidates[..|candidates|] == candidates;
  }

  /** scoreRecords, on an index whose vectors match its records: the candidates that have a similarity, each
      with its score, the best first. */
  method ScoreRecords(q: Query, records: seq<Record>, vectors: seq<Vector>) returns (hits: seq<Hit>)
    requires |records| == |vectors|
    ensures InRange(Candidates(q, records), |records|)
    ensures hits == Ranked(q, records, vectors, Candidates(q, records))
    ensures BestFirst(hits) && StandFor(q, records, vectors, Candidates(q, records), hits)
  {
    CandidatesHold(q, records);
    RankedIsBestFirst(q, records, vectors, Candidates(q, records));
    SortedStandFor(q, records, vectors, Candidates(q, records), HitsOf(q, records, vectors, Candidates(q, records)));
    if records == [] {
      return [];
    }
    var candidates := ScoreCandidateIndices(q, records);
    var found := ScoreCandidates(q, records, vectors, candidates);
    hits := Sort(found, NotWorse);
  }

  // ----- Narrowing does not reorder -----

  function Restrict(hits: seq<Hit>, ids: set<string>): (r: seq<Hit>)
    ensures forall h :: h in r <==> h in hits && h.record.id in ids
    ensures |r| <= |hits|
  {
    if hits == [] then []
    else
      var rest := Restrict(hits[1..], ids);
      assert hits == [hits[0]] + hits[1..];
      if hits[0].record.id in ids then [hits[0]] + rest else rest
  }

  lemma {:induction false} RestrictKeepsOrder(hits: seq<Hit>, ids: set<string>)
    requires SortedBy(hits, NotWorse)
    ensures SortedBy(Restrict(hits, ids), NotWorse)
  {
    if hits != [] {
      RestrictKeepsOrder(hits[1..], ids);
      forall h | h in Restrict(hits[1..], ids) ensures NotWorse(hits[0], h) {
        assert h in hits[1..];
      }
    }
  }

  lemma {:induction false} NewHit(q: Query, records: seq<Record>, vectors: seq<Vector>, indices: seq<nat>, next: nat)
    requires |records| == |vectors| && InRange(indices, |records|) && UniqueIds(records)
    requires next < |records| && next !in indices && HitOf(q, records, vectors, next).Some?
    ensures HitOf(q, records, vectors, next).value !in HitsOf(q, records, vectors, indices)
  {
    var hit := HitOf(q, records, vectors, next).value;
    forall h | h in HitsOf(q, records, vectors, indices) ensures h != hit {
      var i := RecordOfHit(q, records, vectors, indices, h);
      assert i != next;
    }
  }

  lemma {:induction false} HitsAreDistinct(q: Query, records: seq<Record>, vectors: seq<Vector>, indices: seq<nat>)
    requires |records| == |vectors| && InRange(indices, |records|)
    requires NoRepeats(indices) && UniqueIds(records)
    ensures NoRepeats(HitsOf(q, records, vectors, indices))
  {
    if indices != [] {
      var last := |indices| - 1;
      HitsAreDistinct(q, records, vectors, indices[..last]);
      var hit := HitOf(q, records, vectors, indices[last]);
      if hit.Some? {
        NewHit(q, records, vectors, indices[..last], indices[last]);
      }
    }
  }

  lemma {:induction false} CountOnce<T>(a: seq<T>, x: T)
    requires NoRepeats(a)
    ensures multiset(a)[x] == if x in a then 1 else 0
  {
    if a != [] {
      assert a == [a[0]] + a[1..];
      CountOnce(a[1..], x);
    }
  }

  function IdsOf(records: seq<Record>, indices: seq<nat>): set<string>
    requires InRange(indices, |records|)
  {
    set k | 0 <= k < |indices| :: records[indices[k]].id
  }

  lemma {:induction false} RestrictCounts(hits: seq<Hit>, ids: set<string>, h: Hit)
    ensures multiset(Restrict(hits, ids))[h] == if h.record.id in ids then multiset(hits)[h] else 0
  {
    if hits != [] {
      RestrictCounts(hits[1..], ids, h);
      assert hits == [hits[0]] + hits[1..];
    }
  }

  lemma {:induction false} RecordOfHit(q: Query, records: seq<Record>, vectors: seq<Vector>, indices: seq<nat>, h: Hit)
    returns (i: nat)
    requires |records| == |vectors| && InRange(indices, |records|) && h in HitsOf(q, records, vectors, indices)
    ensures i in indices && i < |records| && HitOf(q, records, vectors, i) == Some(h) && h.record == records[i]
  {
    var k :| 0 <= k < |indices| && HitOf(q, records, vectors, indices[k]) == Some(h);
    i := indices[k];
  }

  /** The narrowed hits are the full ones whose records are candidates. */
  lemma {:induction false} NarrowMembers(q: Query, records: seq<Record>, vectors: seq<Vector>, some: seq<nat>,
                                         all: seq<nat>, h: Hit)
    requires |records| == |vectors| && UniqueIds(records)
    requires InRange(all, |records|) && InRange(some, |records|) && (forall i: nat :: i in some ==> i in all)
    ensures h in HitsOf(q, records, vectors, some) <==>
            h in HitsOf(q, records, vectors, all) && h.record.id in IdsOf(records, some)
  {
    if h in HitsOf(q, records, vectors, some) {
      var i := RecordOfHit(q, records, vectors, some, h);
      var j :| 0 <= j < |some| && some[j] == i;
      assert records[some[j]].id in IdsOf(records, some);
      var k :| 0 <= k < |all| && all[k] == i;
    }
    if h in HitsOf(q, records, vectors, all) && h.record.id in IdsOf(records, some) {
      var i := RecordOfHit(q, records, vectors, all, h);
      var k :| 0 <= k < |some| && records[some[k]].id == h.record.id;
      assert i == some[k];
    }
  }

  lemma {:induction false} SameHits(q: Query, records: seq<Record>, vectors: seq<Vector>, some: seq<nat>, all: seq<nat>,
                                    narrow: seq<Hit>, full: seq<Hit>, ids: set<string>)
    requires |records| == |vectors| && UniqueIds(records) && NoRepeats(some) && NoRepeats(all)
    requires InRange(all, |records|) && InRange(some, |records|) && (forall i: nat :: i in some ==> i in all)
    requires narrow == HitsOf(q, records, vectors, some) && full == HitsOf(q, records, vectors, all)
    requires ids == IdsOf(records, some)
    ensures multiset(narrow) == multiset(Restrict(Sort(full, NotWorse), ids))
  {
    HitsAreDistinct(q, records, vectors, some);
    HitsAreDistinct(q, records, vectors, all);
    forall h ensures multiset(narrow)[h] == multiset(Restrict(Sort(full, NotWorse), ids))[h] {
      RestrictCounts(Sort(full, NotWorse), ids, h);
      CountOnce(narrow, h);
      CountOnce(full, h);
      NarrowMembers(q, records, vectors, some, all, h);
    }
  }

  /** Two hits of the list that the sort cannot tell apart are one. */
  lemma {:induction false} HitsSeparate(q: Query, records: seq<Record>, vectors: seq<Vector>, indices: seq<nat>,
                                        x: Hit, y: Hit)
    requires |records| == |vectors| && UniqueIds(records) && InRange(indices, |records|)
    requires x in HitsOf(q, records, vectors, indices) && y in HitsOf(q, records, vectors, indices)
    requires NotWorse(x, y) && NotWorse(y, x)
    ensures x == y
  {
    BeforeSeparates(x.record.path, y.record.path);
    BeforeSeparates(x.record.id, y.record.id);
    var i := RecordOfHit(q, records, vectors, indices, x);
    var j := RecordOfHit(q, records, vectors, indices, y);
    assert i == j;
  }

  /** Ranking some of the records gives the full ranking restricted to them: the same hits, with the same
      scores and in the same order. */
  lemma {:induction false} NarrowedIsRestricted(q: Query, records: seq<Record>, vectors: seq<Vector>, some: seq<nat>,
                                                all: seq<nat>)
    requires |records| == |vectors| && UniqueIds(records) && NoRepeats(some) && NoRepeats(all)
    requires InRange(all, |records|) && InRange(some, |records|) && (forall i: nat :: i in some ==> i in all)
    ensures Ranked(q, records, vectors, some) == Restrict(Ranked(q, records, vectors, all), IdsOf(records, some))
  {
    var narrow, full, ids := HitsOf(q, records, vectors, some), HitsOf(q, records, vectors, all), IdsOf(records, some);
    NotWorseOrders();
    SortSorts(narrow, NotWorse);
    SortSorts(full, NotWorse);
    RestrictKeepsOrder(Sort(full, NotWorse), ids);
    SameHits(q, records, vectors, some, all, narrow, full, ids);
    SameElements(Sort(narrow, NotWorse), narrow);
    forall x, y | x in narrow && y in narrow && NotWorse(x, y) && NotWorse(y, x) ensures x == y {
      HitsSeparate(q, records, vectors, some, x, y);
    }
    SortedIsUnique(Sort(narrow, NotWorse), Restrict(Sort(full, NotWorse), ids), NotWorse);
  }

  /** What scoreRecords returns on candidates is the ranking of every record, restricted to the candidates. */
  lemma {:induction false} ScoringRefinesFullRanking(q: Query, records: seq<Record>, vectors: seq<Vector>)
    requires |records| == |vectors| && UniqueIds(records)
    ensures InRange(Candidates(q, records), |records|)
    ensures var all := Everything(|records|);
      Ranked(q, records, vectors, Candidates(q, records))
      == Restrict(Ranked(q, records, vectors, all), IdsOf(records, Candidates(q, records)))
  {
    var all := Everything(|records|);
    CandidatesHold(q, records);
    NarrowedIsRestricted(q, records, vectors, Candidates(q, records), all);
  }

  // ----- Varied hits -----

  /** The different paths of the hits, in order of first appearance. */
  function PathsInOrder(hits: seq<Hit>): (r: seq<string>)
    ensures forall p :: p in r <==> exists i :: 0 <= i < |hits| && hits[i].record.path == p
    ensures NoRepeats(r)
  {
    if hits == [] then []
    else
      var last := |hits| - 1;
      var rest := PathsInOrder(hits[..last]);
      assert forall i :: 0 <= i < last ==> hits[..last][i] == hits[i];
      assert hits[last].record.path in rest + [hits[last].record.path];
      if hits[last].record.path in rest then rest else rest + [hits[last].record.path]
  }

  function CountPath(hits: seq<Hit>, path: string): (n: nat) {
    if hits == [] then 0
    else CountPath(hits[..|hits| - 1], path) + if hits[|hits| - 1].record.path == path then 1 else 0
  }

  /** Hit k is among the first maxPerFile of its file, and its file is among the first maxFiles. */
  predicate Wanted(hits: seq<Hit>, maxFiles: nat, maxPerFile: nat, k: nat)
    requires k < |hits|
  {
    var path := hits[k].record.path;
    path in AtMost(PathsInOrder(hits[..k + 1]), maxFiles) && CountPath(hits[..k], path) < maxPerFile
  }

  function Varied(hits: seq<Hit>, maxFiles: nat, maxPerFile: nat, k: nat): seq<Hit>
    requires k <= |hits|
  {
    if k == 0 then []
    else Varied(hits, maxFiles, maxPerFile, k - 1)
         + if Wanted(hits, maxFiles, maxPerFile, k - 1) then [hits[k - 1]] else []
  }

  function OrDefault(n: int, fallback: nat): nat {
    if n <= 0 then fallback else n
  }

  lemma {:induction false} VariedNext(hits: seq<Hit>, maxFiles: nat, maxPerFile: nat, k: nat)
    requires k < |hits|
    ensures Varied(hits, maxFiles, maxPerFile, k) <= Varied(hits, maxFiles, maxPerFile, k + 1)
  {
  }

  lemma {:induction false} VariedGrows(hits: seq<Hit>, maxFiles: nat, maxPerFile: nat, j: nat, k: nat)
    requires j <= k <= |hits|
    ensures Varied(hits, maxFiles, maxPerFile, j) <= Varied(hits, maxFiles, maxPerFile, k)
    decreases k - j
  {
    if j < k {
      VariedNext(hits, maxFiles, maxPerFile, j);
      VariedGrows(hits, maxFiles, maxPerFile, j + 1, k);
    }
  }

  /** The files that the first k hits admit. */
  function FirstFiles(hits: seq<Hit>, maxFiles: nat, k: nat): seq<string>
    requires k <= |hits|
  {
    AtMost(PathsInOrder(hits[..k]), maxFiles)
  }

  /** The loop's counters. */
  datatype Tally = Tally(fileOrder: map<string, nat>, filesUsed: map<string, nat>, fileCount: nat)

  /** What the counters say when these files are admitted and have had so many hits. */
  ghost predicate Tracks(files: seq<string>, count: string -> nat, maxPerFile: nat, tally: Tally) {
    && tally.fileCount == |files|
    && (forall p :: p in tally.fileOrder <==> p in files)
    && (forall p :: p in tally.fileOrder ==> Used(tally.filesUsed, p) == Min(count(p), maxPerFile))
    && (forall p :: p in tally.filesUsed ==> p in tally.fileOrder)
  }

  function Counts(hits: seq<Hit>, k: nat): string -> nat
    requires k <= |hits|
  {
    p => CountPath(hits[..k], p)
  }

  lemma {:induction false} FirstFilesStep(hits: seq<Hit>, maxFiles: nat, k: nat)
    requires k < |hits|
    ensures var before, path := FirstFiles(hits, maxFiles, k), hits[k].record.path;
      FirstFiles(hits, maxFiles, k + 1) == if path in before || |before| >= maxFiles then before else before + [path]
  {
    assert hits[..k + 1][..k] == hits[..k];
  }

  lemma {:induction false} CountStep(hits: seq<Hit>, k: nat, p: string)
    requires k < |hits|
    ensures CountPath(hits[..k + 1], p) == CountPath(hits[..k], p) + if hits[k].record.path == p then 1 else 0
  {
    assert hits[..k + 1][..k] == hits[..k];
  }

  lemma {:induction false} CountOfAbsent(hits: seq<Hit>, p: string)
    requires p !in PathsInOrder(hits)
    ensures CountPath(hits, p) == 0
  {
    if hits != [] {
      CountOfAbsent(hits[..|hits| - 1], p);
    }
  }

  /** The counters and the choice after a hit at `path`. */
  function Considered(tally: Tally, path: string, maxFiles: nat, maxPerFile: nat): (r: (bool, Tally)) {
    if path !in tally.fileOrder && tally.fileCount >= maxFiles then (false, tally)
    else
      var order := if path in tally.fileOrder then tally.fileOrder else tally.fileOrder[path := tally.fileCount];
      var count := if path in tally.fileOrder then tally.fileCount else tally.fileCount + 1;
      if Used(tally.filesUsed, path) >= maxPerFile then (false, Tally(order, tally.filesUsed, count))
      else (true, Tally(order, tally.filesUsed[path := Used(tally.filesUsed, path) + 1], count))
  }

  lemma {:induction false} TallyStep(files: seq<string>, after: seq<string>, count: string -> nat,
                                     countAfter: string -> nat,
                                     path: string, maxFiles: nat, maxPerFile: nat, tally: Tally)
    requires Tracks(files, count, maxPerFile, tally)
    requires after == if path in files || |files| >= maxFiles then files else files + [path]
    requires path !in files && |files| < maxFiles ==> count(path) == 0
    requires forall p :: countAfter(p) == count(p) + if p == path then 1 else 0
    ensures var (taken, next) := Considered(tally, path, maxFiles, maxPerFile);
      taken == (path in after && count(path) < maxPerFile) && Tracks(after, countAfter, maxPerFile, next)
  {
  }

  /** The choice is the one wanted, and the counters keep track. */
  lemma {:induction false} ConsideredIsWanted(hits: seq<Hit>, maxFiles: nat, maxPerFile: nat, k: nat, tally: Tally)
    requires k < |hits| && Tracks(FirstFiles(hits, maxFiles, k), Counts(hits, k), maxPerFile, tally)
    ensures var (taken, next) := Considered(tally, hits[k].record.path, maxFiles, maxPerFile);
      taken == Wanted(hits, maxFiles, maxPerFile, k)
      && Tracks(FirstFiles(hits, maxFiles, k + 1), Counts(hits, k + 1), maxPerFile, next)
  {
    var path, files := hits[k].record.path, FirstFiles(hits, maxFiles, k);
    FirstFilesStep(hits, maxFiles, k);
    if path !in files && |files| < maxFiles { CountOfAbsent(hits[..k], path); }
    forall p ensures Counts(hits, k + 1)(p) == Counts(hits, k)(p) + if p == path then 1 else 0 {
      CountStep(hits, k, p);
    }
    TallyStep(files, FirstFiles(hits, maxFiles, k + 1), Counts(hits, k), Counts(hits, k + 1), path, maxFiles,
              maxPerFile, tally);
  }

  /** The wanted ones among the first hits, and whether there are enough of them. */
  lemma {:induction false} VariedStep(hits: seq<Hit>, maxFiles: nat, maxPerFile: nat, k: nat)
    requires k < |hits|
    ensures Varied(hits, maxFiles, maxPerFile, k + 1) ==
            Varied(hits, maxFiles, maxPerFile, k) + if Wanted(hits, maxFiles, maxPerFile, k) then [hits[k]] else []
    ensures Varied(hits, maxFiles, maxPerFile, k + 1) <= Varied(hits, maxFiles, maxPerFile, |hits|)
  {
    VariedGrows(hits, maxFiles, maxPerFile, k + 1, |hits|);
  }

  /** One turn of the loop: whether the hit is taken, and the counters after it. */
  method Consider(tally: Tally, path: string, maxFiles: nat, maxPerFile: nat) returns (taken: bool, next: Tally)
    ensures (taken, next) == Considered(tally, path, maxFiles, maxPerFile)
  {
    next := tally;
    if path !in next.fileOrder {
      if next.fileCount >= maxFiles {
        return false, next;
      }
      next := next.(fileOrder := next.fileOrder[path := next.fileCount], fileCount := next.fileCount + 1);
    }
    if Used(next.filesUsed, path) >= maxPerFile {
      return false, next;
    }
    next := next.(filesUsed := next.filesUsed[path := Used(next.filesUsed, path) + 1]);
    taken := true;
  }

  /** diversifyHits. */
  method DiversifyHits(hits: seq<Hit>, maxFilesArg: int, maxPerFileArg: int, maxRecordsArg: int) returns (out: seq<Hit>)
    ensures out == AtMost(Varied(hits, OrDefault(maxFilesArg, 12), OrDefault(maxPerFileArg, 4), |hits|),
                          OrDefault(maxRecordsArg, 40))
  {
    var maxFiles := if maxFilesArg <= 0 then 12 else maxFilesArg;
    var maxPerFile := if maxPerFileArg <= 0 then 4 else maxPerFileArg;
    var maxRecords := if maxRecordsArg <= 0 then 40 else maxRecordsArg;
    out := TakeVaried(hits, maxFiles, maxPerFile, maxRecords);
  }

  method TakeVaried(hits: seq<Hit>, maxFiles: nat, maxPerFile: nat, maxRecords: nat) returns (out: seq<Hit>)
    requires maxRecords > 0
    ensures out == AtMost(Varied(hits, maxFiles, maxPerFile, |hits|), maxRecords)
  {
    var tally := Tally(map[], map[], 0);
    out := [];
    for k := 0 to |hits|
      invariant out == Varied(hits, maxFiles, maxPerFile, k) && |out| < maxRecords
      invariant Tracks(FirstFiles(hits, maxFiles, k), Counts(hits, k), maxPerFile, tally)
    {
      ConsideredIsWanted(hits, maxFiles, maxPerFile, k, tally);
      VariedStep(hits, maxFiles, maxPerFile, k);
      var taken;
      taken, tally := Consider(tally, hits[k].record.path, maxFiles, maxPerFile);
      if taken {
        out := out + [hits[k]];
        if |out| >= maxRecords {
          Enough(out, Varied(hits, maxFiles, maxPerFile, |hits|), maxRecords);
          return;
        }
      }
    }
  }

  lemma {:induction false} Enough<T>(some: seq<T>, all: seq<T>, n: nat)
    requires some <= all && |some| == n
    ensures AtMost(all, n) == some
  {
  }

  /** A missing counter reads as zero. */
  function Used(m: map<string, nat>, p: string): nat {
    if p in m then m[p] else 0
  }

  function Min(a: nat, b: nat): nat {
    if a < b then a else b
  }

  // ----- What the choice means -----

  /** The places of the hits of one file. */
  function PlacesAt(hits: seq<Hit>, path: string): set<nat> {
    set i | 0 <= i < |hits| && hits[i].record.path == path
  }

  function FilesIn(hits: seq<Hit>): set<string> {
    set i | 0 <= i < |hits| :: hits[i].record.path
  }

  lemma {:induction false} CountIs(hits: seq<Hit>, path: string)
    ensures CountPath(hits, path) == |PlacesAt(hits, path)|
  {
    if hits != [] {
      var last := |hits| - 1;
      CountIs(hits[..last], path);
      assert PlacesAt(hits, path) ==
             PlacesAt(hits[..last], path) + if hits[last].record.path == path then {last} else {};
    }
  }

  lemma {:induction false} PathsSnoc(hits: seq<Hit>, h: Hit)
    ensures PathsInOrder(hits + [h]) ==
            PathsInOrder(hits) + if h.record.path in PathsInOrder(hits) then [] else [h.record.path]
  {
    assert (hits + [h])[..|hits|] == hits;
  }

  lemma {:induction false} FilesSnoc(hits: seq<Hit>, h: Hit)
    ensures FilesIn(hits + [h]) == FilesIn(hits) + {h.record.path}
  {
    var more := hits + [h];
    assert more[|hits|] == h && forall i :: 0 <= i < |hits| ==> more[i] == hits[i];
    forall p ensures p in FilesIn(more) <==> p in FilesIn(hits) || p == h.record.path {
      if p in FilesIn(hits) {
        var i :| 0 <= i < |hits| && hits[i].record.path == p;
        assert more[i].record.path == p;
      }
    }
  }

  lemma {:induction false} FilesAre(hits: seq<Hit>)
    ensures |PathsInOrder(hits)| == |FilesIn(hits)|
    ensures forall p :: p in PathsInOrder(hits) <==> p in FilesIn(hits)
  {
    if hits != [] {
      var before, h := hits[..|hits| - 1], hits[|hits| - 1];
      FilesAre(before);
      assert hits == before + [h];
      FilesSnoc(before, h);
      PathsSnoc(before, h);
    }
  }

  /** The files of the chosen hits are the first files, and each has its share of its hits. */
  lemma {:induction false} ChosenSoFar(hits: seq<Hit>, maxFiles: nat, maxPerFile: nat, k: nat, path: string)
    requires k <= |hits| && maxPerFile > 0
    ensures PathsInOrder(Varied(hits, maxFiles, maxPerFile, k)) == FirstFiles(hits, maxFiles, k)
    ensures CountPath(Varied(hits, maxFiles, maxPerFile, k), path) ==
            if path in FirstFiles(hits, maxFiles, k) then Min(CountPath(hits[..k], path), maxPerFile) else 0
  {
    if k > 0 {
      ChosenSoFar(hits, maxFiles, maxPerFile, k - 1, path);
      ChosenNext(hits, maxFiles, maxPerFile, k - 1, Varied(hits, maxFiles, maxPerFile, k - 1), path);
    }
  }

  lemma {:induction false} ChosenNext(hits: seq<Hit>, maxFiles: nat, maxPerFile: nat, k: nat, chosen: seq<Hit>,
                                      path: string)
    requires k < |hits| && maxPerFile > 0 && PathsInOrder(chosen) == FirstFiles(hits, maxFiles, k)
    requires CountPath(chosen, path) ==
             if path in FirstFiles(hits, maxFiles, k) then Min(CountPath(hits[..k], path), maxPerFile) else 0
    ensures var next := chosen + if Wanted(hits, maxFiles, maxPerFile, k) then [hits[k]] else [];
      && PathsInOrder(next) == FirstFiles(hits, maxFiles, k + 1)
      && CountPath(next, path) ==
         if path in FirstFiles(hits, maxFiles, k + 1) then Min(CountPath(hits[..k + 1], path), maxPerFile) else 0
  {
    var own, files := hits[k].record.path, FirstFiles(hits, maxFiles, k);
    FirstFilesStep(hits, maxFiles, k);
    CountStep(hits, k, path);
    CountOfAppend(chosen, hits[k], path);
    PathsSnoc(chosen, hits[k]);
    if own !in files && |files| < maxFiles { CountOfAbsent(hits[..k], own); }
  }

  /** The choice is greedy: a hit is taken unless its file has its share already, or would be one file too many. */
  lemma {:induction false} VariedIsGreedy(hits: seq<Hit>, maxFiles: nat, maxPerFile: nat, k: nat)
    requires k < |hits| && maxPerFile > 0
    ensures var chosen, path := Varied(hits, maxFiles, maxPerFile, k), hits[k].record.path;
      Varied(hits, maxFiles, maxPerFile, k + 1) ==
      chosen + if |PlacesAt(chosen, path)| < maxPerFile && (path in FilesIn(chosen) || |FilesIn(chosen)| < maxFiles)
               then [hits[k]] else []
  {
    var chosen, path := Varied(hits, maxFiles, maxPerFile, k), hits[k].record.path;
    ChosenSoFar(hits, maxFiles, maxPerFile, k, path);
    CountIs(chosen, path);
    FilesAre(chosen);
    FirstFilesStep(hits, maxFiles, k);
    if path !in PathsInOrder(hits[..k]) { CountOfAbsent(hits[..k], path); }
  }

  /** Varied hits: taken in order, at most so many, of at most so many files, at most so many of each. */
  lemma {:induction false} VariedIsBounded(hits: seq<Hit>, maxFiles: nat, maxPerFile: nat, maxRecords: nat,
                                           path: string)
    ensures var out := AtMost(Varied(hits, maxFiles, maxPerFile, |hits|), maxRecords);
      |out| <= maxRecords && |PlacesAt(out, path)| <= maxPerFile && |FilesIn(out)| <= maxFiles
  {
    CountIs(AtMost(Varied(hits, maxFiles, maxPerFile, |hits|), maxRecords), path);
    FilesAre(AtMost(Varied(hits, maxFiles, maxPerFile, |hits|), maxRecords));
    var all := Varied(hits, maxFiles, maxPerFile, |hits|);
    var out := AtMost(all, maxRecords);
    VariedCounts(hits, maxFiles, maxPerFile, |hits|, path);
    assert all[..|all|] == all;
    CountOfPrefix(all, |out|, path);
    assert hits[..|hits|] == hits;
    var files := AtMost(PathsInOrder(hits), maxFiles);
    forall p | p in PathsInOrder(out) ensures p in files {
      var i :| 0 <= i < |out| && out[i].record.path == p;
      VariedFiles(hits, maxFiles, maxPerFile, |hits|, all[i]);
    }
    Fewer(PathsInOrder(out), files);
  }

  lemma {:induction false} VariedCounts(hits: seq<Hit>, maxFiles: nat, maxPerFile: nat, k: nat, path: string)
    requires k <= |hits|
    ensures CountPath(Varied(hits, maxFiles, maxPerFile, k), path) <= Min(CountPath(hits[..k], path), maxPerFile)
  {
    if k > 0 {
      VariedCounts(hits, maxFiles, maxPerFile, k - 1, path);
      CountStep(hits, k - 1, path);
      CountOfAppend(Varied(hits, maxFiles, maxPerFile, k - 1), hits[k - 1], path);
    }
  }

  lemma {:induction false} CountOfAppend(hits: seq<Hit>, h: Hit, path: string)
    ensures CountPath(hits + [h], path) == CountPath(hits, path) + if h.record.path == path then 1 else 0
    ensures hits + [] == hits
  {
    assert (hits + [h])[..|hits|] == hits;
  }

  lemma {:induction false} CountOfPrefix(hits: seq<Hit>, k: nat, path: string)
    requires k <= |hits|
    ensures CountPath(hits[..k], path) <= CountPath(hits, path)
    decreases |hits|
  {
    if k < |hits| {
      assert hits[..|hits| - 1][..k] == hits[..k];
      CountOfPrefix(hits[..|hits| - 1], k, path);
    } else {
      assert hits[..k] == hits;
    }
  }

  lemma {:induction false} FilesGrow(some: seq<Hit>, all: seq<Hit>)
    requires some <= all
    ensures PathsInOrder(some) <= PathsInOrder(all)
    decreases |all|
  {
    if |some| < |all| {
      var fewer := all[..|all| - 1];
      assert some <= fewer;
      FilesGrow(some, fewer);
      assert PathsInOrder(fewer) <= PathsInOrder(all);
    } else {
      assert some == all;
    }
  }

  lemma {:induction false} VariedFiles(hits: seq<Hit>, maxFiles: nat, maxPerFile: nat, k: nat, h: Hit)
    requires k <= |hits| && h in Varied(hits, maxFiles, maxPerFile, k)
    ensures h.record.path in AtMost(PathsInOrder(hits[..k]), maxFiles)
  {
    FilesGrow(hits[..k - 1], hits[..k]);
    if h in Varied(hits, maxFiles, maxPerFile, k - 1) {
      VariedFiles(hits, maxFiles, maxPerFile, k - 1, h);
      PrefixMember(PathsInOrder(hits[..k - 1]), PathsInOrder(hits[..k]), maxFiles, h.record.path);
    } else {
      assert h == hits[k - 1] && Wanted(hits, maxFiles, maxPerFile, k - 1);
    }
  }

  lemma {:induction false} PrefixMember(a: seq<string>, b: seq<string>, m: nat, p: string)
    requires a <= b && p in AtMost(a, m)
    ensures p in AtMost(b, m)
  {
    var i :| 0 <= i < |AtMost(a, m)| && AtMost(a, m)[i] == p;
    assert AtMost(b, m)[i] == p;
  }

  lemma {:induction false} Fewer(a: seq<string>, b: seq<string>)
    requires NoRepeats(a) && forall p :: p in a ==> p in b
    ensures |a| <= |b|
    decreases |a|
  {
    if a != [] {
      assert a[0] in b by { assert a[0] in a; }
      var i :| 0 <= i < |b| && b[i] == a[0];
      var rest := b[..i] + b[i + 1..];
      forall p | p in a[1..] ensures p in rest {
        assert p in b && p != a[0];
        var j :| 0 <= j < |b| && b[j] == p;
        assert j < i ==> rest[j] == p;
        assert j > i ==> rest[j - 1] == p;
      }
      Fewer(a[1..], rest);
    }
  }
}
