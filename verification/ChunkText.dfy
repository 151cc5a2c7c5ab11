/** Cutting a file into chunks for analysis (internal/analysis/chunker.go). */
module ChunkText {
  import opened Utf8

  const MIN_CHUNK_BYTES: int := 512
  const DEFAULT_TOKENS: int := 1200
  const NEWLINE: Byte := 10

  datatype Chunk = Chunk(index: nat, start: nat, end: nat, text: seq<Byte>, estTokens: nat)

  /** A 64-bit signed multiplication result. */
  function Wrap64(n: int): int {
    var m := n % 0x1_0000_0000_0000_0000;
    if m >= 0x8000_0000_0000_0000 then m - 0x1_0000_0000_0000_0000 else m
  }

  /** The size limit of a chunk. */
  function MaxBytes(maxTokens: int): (n: nat)
    ensures n >= 512
    ensures maxTokens <= 0 ==> n == 4800
    ensures 0 < maxTokens < 0x2000_0000_0000_0000 ==> n == (if 4 * maxTokens < 512 then 512 else 4 * maxTokens)
  {
    var bytes := Wrap64((if maxTokens <= 0 then DEFAULT_TOKENS else maxTokens) * 4);
    if bytes < MIN_CHUNK_BYTES then MIN_CHUNK_BYTES else bytes
  }

  /** A quarter of the bytes, rounded up. */
  function EstimateTokens(text: seq<Byte>): (n: nat)
    ensures |text| <= 4 * n < |text| + 4
  {
    (|text| + 3) / 4
  }

  /** Position r is right behind a newline that lies more than 64 bytes into the window. */
  predicate LineEnd(raw: seq<Byte>, start: nat, r: int) {
    start + 64 < r <= |raw| && raw[r - 1] == NEWLINE
  }

  /** snapToBoundary: behind the last newline of the window, if there is one far enough in;
      otherwise the longest valid UTF-8 part of the window, or one byte if there is none. */
  method SnapToBoundary(raw: seq<Byte>, start: nat, end: nat) returns (r: nat)
    requires start < end && start < |raw|
    ensures end >= |raw| ==> r == |raw|
    ensures end < |raw| ==> start < r <= end
    ensures end < |raw| && (exists k :: k <= end && LineEnd(raw, start, k)) ==>
              LineEnd(raw, start, r) && forall k :: r < k <= end ==> !LineEnd(raw, start, k)
    ensures end < |raw| && !(exists k :: k <= end && LineEnd(raw, start, k)) ==>
              && (Valid(raw[start..r]) || r == start + 1)
              && forall k :: r < k <= end ==> !Valid(raw[start..k])
  {
    if end >= |raw| {
      return |raw|;
    }
    var i := end;
    while i > start + 64
      invariant i <= end
      invariant forall k :: i < k <= end ==> !LineEnd(raw, start, k)
    {
      if raw[i - 1] == NEWLINE {
        assert LineEnd(raw, start, i);
        return i;
      }
      i := i - 1;
    }
    r := end;
    while r > start && !Valid(raw[start..r])
      invariant start <= r <= end
      invariant forall k :: r < k <= end ==> !Valid(raw[start..k])
    {
      r := r - 1;
    }
    if r <= start {
      return start + 1;
    }
  }

  /** The end chosen for a window, and what it keeps when the rest of the content is valid. */
  method NextEnd(raw: seq<Byte>, start: nat, maxBytes: nat) returns (end: nat)
    requires start < |raw| && maxBytes >= MIN_CHUNK_BYTES
    ensures start < end <= |raw| && end - start <= maxBytes
    ensures Valid(raw[start..]) ==> Valid(raw[start..end]) && Valid(raw[end..])
    ensures Valid(raw[start..]) && end < |raw| ==> end - start >= 65
    ensures Valid(raw[start..]) && end < |raw| && raw[end - 1] != NEWLINE ==> end - start >= maxBytes - 3
  {
    end := start + maxBytes;
    if end > |raw| {
      end := |raw|;
    } else {
      var limit := end;
      end := SnapToBoundary(raw, start, end);
      if Valid(raw[start..]) { SnapValid(raw, start, limit, end); }
    }
    if Valid(raw[start..]) { RestValid(raw, start, end); }
  }

  lemma {:induction false} RestValid(raw: seq<Byte>, start: nat, end: nat)
    requires start <= end <= |raw| && Valid(raw[start..])
    ensures Valid(raw[start..end]) ==> Valid(raw[end..])
    ensures end == |raw| ==> Valid(raw[start..end])
  {
    assert raw[start..end] + raw[end..] == raw[start..];
    if end == |raw| { assert raw[start..end] == raw[start..]; }
    if Valid(raw[start..end]) { ValidRest(raw[start..end], raw[end..]); }
  }

  lemma {:induction false} LineEndValid(raw: seq<Byte>, start: nat, rest: seq<Byte>, r: nat)
    requires start < r <= |raw| && rest == raw[start..] && Valid(rest) && raw[r - 1] == NEWLINE
    ensures Valid(raw[start..r])
  {
    assert rest[r - 1 - start] == raw[r - 1];
    CutAfterAscii(rest, r - 1 - start);
    assert rest[..r - start] == raw[start..r];
  }

  lemma {:induction false} SnapValid(raw: seq<Byte>, start: nat, limit: nat, r: nat)
    requires start < |raw| && start + MIN_CHUNK_BYTES <= limit <= |raw| && Valid(raw[start..])
    requires limit >= |raw| ==> r == |raw|
    requires limit < |raw| ==> start < r <= limit
    requires limit < |raw| && (exists k :: k <= limit && LineEnd(raw, start, k)) ==> LineEnd(raw, start, r)
    requires limit < |raw| && !(exists k :: k <= limit && LineEnd(raw, start, k)) ==>
               (Valid(raw[start..r]) || r == start + 1) && forall k :: r < k <= limit ==> !Valid(raw[start..k])
    ensures Valid(raw[start..r])
    ensures r < |raw| ==> r - start >= 65
    ensures r < |raw| && raw[r - 1] != NEWLINE ==> r - start >= limit - start - 3
  {
    var rest := raw[start..];
    assert forall k :: start <= k <= |raw| ==> rest[..k - start] == raw[start..k];
    if limit >= |raw| {
      assert raw[start..r] == rest;
    } else if exists k :: k <= limit && LineEnd(raw, start, k) {
      LineEndValid(raw, start, rest, r);
    } else {
      var k := CutNearby(rest, limit - start);
      assert Valid(raw[start..start + k]);
      assert start + k <= r;
    }
  }

  /** The chunks cover content[..end] without gap or overlap, in order. */
  ghost predicate ChunksOk(chunks: seq<Chunk>, content: seq<Byte>, end: nat, maxBytes: nat) {
    && end <= |content|
    && (chunks == [] ==> end == 0)
    && (chunks != [] ==> chunks[0].start == 0 && chunks[|chunks| - 1].end == end)
    && (forall k :: 0 <= k < |chunks| ==>
          && chunks[k].index == k
          && chunks[k].start < chunks[k].end <= |content|
          && chunks[k].end - chunks[k].start <= maxBytes
          && chunks[k].text == content[chunks[k].start..chunks[k].end]
          && chunks[k].estTokens == EstimateTokens(chunks[k].text))
    && (forall k :: 0 < k < |chunks| ==> chunks[k - 1].end == chunks[k].start)
  }

  /** Every chunk is valid text, and every chunk but the last is at least 65 bytes long. */
  ghost predicate TextOk(chunks: seq<Chunk>, total: nat) {
    forall k :: 0 <= k < |chunks| ==>
      Valid(chunks[k].text) && (chunks[k].end < total ==> |chunks[k].text| >= 65)
  }

  lemma {:induction false} ChunksSnoc(chunks: seq<Chunk>, content: seq<Byte>, start: nat, maxBytes: nat, c: Chunk)
    requires ChunksOk(chunks, content, start, maxBytes)
    requires c.index == |chunks| && c.start == start < c.end <= |content| && c.end - start <= maxBytes
    requires c.text == content[start..c.end] && c.estTokens == EstimateTokens(c.text)
    ensures ChunksOk(chunks + [c], content, c.end, maxBytes)
  {
  }

  lemma {:induction false} TextSnoc(chunks: seq<Chunk>, c: Chunk, total: nat)
    requires TextOk(chunks, total) && Valid(c.text) && (c.end < total ==> |c.text| >= 65)
    ensures TextOk(chunks + [c], total)
  {
  }

  /** ChunkText: any content is covered; valid content is cut into valid chunks. */
  method ChunkText(content: seq<Byte>, maxTokens: int) returns (out: seq<Chunk>)
    ensures ChunksOk(out, content, |content|, MaxBytes(maxTokens))
    ensures content == [] ==> out == []
    ensures Valid(content) ==> TextOk(out, |content|)
  {
    var maxBytes := MaxBytes(maxTokens);
    if content == [] {
      return [];
    }
    out := [];
    var start := 0;
    assert content[0..] == content;
    while start < |content|
      invariant ChunksOk(out, content, start, maxBytes)
      invariant Valid(content) ==> Valid(content[start..]) && TextOk(out, |content|)
      decreases |content| - start
    {
      var end := NextEnd(content, start, maxBytes);
      var segment := content[start..end];
      var chunk := Chunk(|out|, start, end, segment, EstimateTokens(segment));
      ChunksSnoc(out, content, start, maxBytes, chunk);
      if Valid(content) { TextSnoc(out, chunk, |content|); }
      out := out + [chunk];
      start := end;
    }
  }

  function Texts(chunks: seq<Chunk>): seq<Byte> {
    if chunks == [] then [] else Texts(chunks[..|chunks| - 1]) + chunks[|chunks| - 1].text
  }

  /** The texts of the chunks, one after the other, are the content. */
  lemma {:induction false} ChunksConcatenate(chunks: seq<Chunk>, content: seq<Byte>, end: nat, maxBytes: nat)
    requires ChunksOk(chunks, content, end, maxBytes)
    ensures Texts(chunks) == content[..end]
    decreases |chunks|
  {
    if chunks != [] {
      var n := |chunks| - 1;
      var last := chunks[n];
      assert n > 0 ==> chunks[n - 1].end == last.start;
      ChunksConcatenate(chunks[..n], content, last.start, maxBytes);
      assert content[..last.start] + content[last.start..last.end] == content[..end];
    }
  }

  /** Valid content of n bytes is cut into at most n / 65 + 1 chunks. */
  lemma {:induction false} FewChunks(chunks: seq<Chunk>, content: seq<Byte>, maxBytes: nat)
    requires ChunksOk(chunks, content, |content|, maxBytes) && TextOk(chunks, |content|)
    ensures 65 * (|chunks| - 1) <= |content|
  {
    if chunks != [] { EndsGrow(chunks, content, maxBytes, |chunks| - 1); }
  }

  lemma {:induction false} EndsGrow(chunks: seq<Chunk>, content: seq<Byte>, maxBytes: nat, k: nat)
    requires ChunksOk(chunks, content, |content|, maxBytes) && TextOk(chunks, |content|) && k < |chunks|
    ensures chunks[k].start >= 65 * k
  {
    if k > 0 {
      EndsGrow(chunks, content, maxBytes, k - 1);
      assert chunks[k - 1].end == chunks[k].start < |content|;
    }
  }

  lemma {:induction false} TextsValid(chunks: seq<Chunk>)
    requires forall k :: 0 <= k < |chunks| ==> Valid(chunks[k].text)
    ensures Valid(Texts(chunks))
  {
    if chunks != [] {
      TextsValid(chunks[..|chunks| - 1]);
      ValidConcat(Texts(chunks[..|chunks| - 1]), chunks[|chunks| - 1].text);
    }
  }

  /** Chunks that are all valid can only come from valid content: no cut hides a broken character. */
  lemma {:induction false} ValidChunksOnlyFromValid(chunks: seq<Chunk>, content: seq<Byte>, maxBytes: nat)
    requires ChunksOk(chunks, content, |content|, maxBytes)
    requires forall k :: 0 <= k < |chunks| ==> Valid(chunks[k].text)
    ensures Valid(content)
  {
    TextsValid(chunks);
    ChunksConcatenate(chunks, content, |content|, maxBytes);
    assert content[..|content|] == content;
  }
}
