/** Content-Length framing over standard input and output, and the matching of responses to
    requests by id (internal/mcp/stdio_client.go; section 5 of JSON-RPC 2.0). */
module Framing {
  import opened Options
  import opened Decimal
  import opened Utf8

  type Bytes = seq<Byte>

  const CR: Byte := 13
  const LF: Byte := 10
  const MAX_INT: nat := 0x7FFF_FFFF_FFFF_FFFF

  function Ascii(s: string): (r: Bytes)
    ensures |r| == |s|
    ensures forall i :: 0 <= i < |s| && s[i] as int < 128 ==> r[i] == s[i] as int
  {
    seq(|s|, i requires 0 <= i < |s| => if s[i] as int < 128 then s[i] as int else 63)
  }

  // ----- White space -----

  /** The length of the white-space character at the front of s, or 0. */
  function SpaceLength(s: Bytes): (n: nat)
    ensures n <= |s|
  {
    if |s| >= 1 && (9 <= s[0] <= 13 || s[0] == 32) then 1
    else if |s| >= 2 && s[0] == 0xC2 && (s[1] == 0x85 || s[1] == 0xA0) then 2
    else if |s| >= 3 && (|| (s[0] == 0xE1 && s[1] == 0x9A && s[2] == 0x80)
                         || (s[0] == 0xE2 && s[1] == 0x80 && (0x80 <= s[2] <= 0x8A || s[2] in {0xA8, 0xA9, 0xAF}))
                         || (s[0] == 0xE2 && s[1] == 0x81 && s[2] == 0x9F)
                         || (s[0] == 0xE3 && s[1] == 0x80 && s[2] == 0x80)) then 3
    else 0
  }

  function TrimLeft(s: Bytes): Bytes {
    var n := SpaceLength(s);
    if n == 0 then s else TrimLeft(s[n..])
  }

  /** The length of the white-space character at the end of s, or 0. */
  function SpaceAtEnd(s: Bytes): (n: nat)
    ensures n <= |s|
  {
    if |s| >= 1 && SpaceLength(s[|s| - 1..]) == 1 then 1
    else if |s| >= 2 && SpaceLength(s[|s| - 2..]) == 2 then 2
    else if |s| >= 3 && SpaceLength(s[|s| - 3..]) == 3 then 3
    else 0
  }

  function TrimRight(s: Bytes): (r: Bytes)
    ensures r <= s
    decreases |s|
  {
    var n := SpaceAtEnd(s);
    if n == 0 then s else TrimRight(s[..|s| - n])
  }

  function TrimSpace(s: Bytes): Bytes {
    TrimRight(TrimLeft(s))
  }

  // ----- Numbers -----

  /** One rune of white space. */
  predicate IsSpace(piece: Bytes) {
    piece != [] && SpaceLength(piece) == |piece|
  }

  predicate AreSpaces(pieces: seq<Bytes>) {
    forall k :: 0 <= k < |pieces| ==> IsSpace(pieces[k])
  }

  function Glued(pieces: seq<Bytes>): Bytes {
    if pieces == [] then [] else Glued(pieces[..|pieces| - 1]) + pieces[|pieces| - 1]
  }

  lemma {:induction false} GluedSnoc(pieces: seq<Bytes>, piece: Bytes)
    ensures Glued(pieces + [piece]) == Glued(pieces) + piece
  {
    assert (pieces + [piece])[..|pieces|] == pieces;
  }

  lemma {:induction false} TrimLeftStep(s: Bytes) returns (piece: Bytes)
    ensures piece == [] ==> TrimLeft(s) == s
    ensures piece != [] ==> IsSpace(piece) && piece <= s && TrimLeft(s) == TrimLeft(s[|piece|..])
  {
    piece := s[..SpaceLength(s)];
  }

  lemma {:induction false} TrimRightStep(s: Bytes) returns (piece: Bytes)
    ensures piece == [] ==> TrimRight(s) == s && SpaceAtEnd(s) == 0
    ensures piece != [] ==> IsSpace(piece) && |piece| <= |s| && s[|s| - |piece|..] == piece
                            && TrimRight(s) == TrimRight(s[..|s| - |piece|])
  {
    piece := s[|s| - SpaceAtEnd(s)..];
  }

  lemma {:induction false} MoveOver(a: Bytes, piece: Bytes, s: Bytes)
    requires piece <= s
    ensures a + s == (a + piece) + s[|piece|..]
  {
  }

  lemma {:induction false} TrimLeftCuts(s: Bytes, before: seq<Bytes>) returns (pieces: seq<Bytes>)
    requires AreSpaces(before)
    ensures Glued(before) + s == Glued(pieces) + TrimLeft(s) && AreSpaces(pieces)
    decreases |s|
  {
    var piece := TrimLeftStep(s);
    if piece == [] {
      pieces := before;
    } else {
      GluedSnoc(before, piece);
      MoveOver(Glued(before), piece, s);
      pieces := TrimLeftCuts(s[|piece|..], before + [piece]);
    }
  }

  lemma {:induction false} TrimRightCuts(s: Bytes) returns (pieces: seq<Bytes>)
    ensures s == TrimRight(s) + Glued(pieces) && AreSpaces(pieces) && SpaceAtEnd(TrimRight(s)) == 0
    decreases |s|
  {
    var piece := TrimRightStep(s);
    if piece == [] {
      pieces := [];
    } else {
      var rest := s[..|s| - |piece|];
      pieces := TrimRightCuts(rest);
      GluedSnoc(pieces, piece);
      RightOf(s, rest, TrimRight(rest), Glued(pieces), piece);
      pieces := pieces + [piece];
    }
  }

  lemma {:induction false} RightOf(s: Bytes, rest: Bytes, a: Bytes, b: Bytes, piece: Bytes)
    requires |piece| <= |s| && rest == s[..|s| - |piece|] && s[|s| - |piece|..] == piece && rest == a + b
    ensures s == a + (b + piece)
  {
    assert s == rest + piece;
  }

  /** Trimming takes white space from both ends and nothing else. */
  lemma {:induction false} TrimSpaceCuts(s: Bytes) returns (left: seq<Bytes>, right: seq<Bytes>)
    ensures s == Glued(left) + (TrimSpace(s) + Glued(right)) && AreSpaces(left) && AreSpaces(right)
    ensures SpaceAtEnd(TrimSpace(s)) == 0
  {
    left := TrimLeftCuts(s, []);
    assert Glued([]) + s == s;
    right := TrimRightCuts(TrimLeft(s));
  }

  function DecimalBytes(n: nat): (r: Bytes)
    ensures |r| == |Digits(n)| && forall i :: 0 <= i < |r| ==> r[i] == 48 + Digits(n)[i]
  {
    var ds := Digits(n);
    seq(|ds|, i requires 0 <= i < |ds| => 48 + ds[i])
  }

  predicate AllDigits(s: Bytes) {
    s != [] && forall i :: 0 <= i < |s| ==> 48 <= s[i] <= 57
  }

  function DigitValues(s: Bytes): (ds: seq<nat>)
    requires forall i :: 0 <= i < |s| ==> 48 <= s[i] <= 57
    ensures |ds| == |s| && forall i :: 0 <= i < |s| ==> ds[i] == s[i] - 48
  {
    seq(|s|, i requires 0 <= i < |s| => s[i] - 48)
  }

  /** strconv.Atoi: an optional sign and digits that fit 64 bits. */
  function Atoi(s: Bytes): Option<int> {
    var negative := s != [] && s[0] == 45;
    var digits := if s != [] && (s[0] == 43 || s[0] == 45) then s[1..] else s;
    if !AllDigits(digits) then None
    else
      var n: int := Value(DigitValues(digits));
      if negative then (if n <= MAX_INT + 1 then Some(-n) else None)
      else if n <= MAX_INT then Some(n) else None
  }

  lemma {:induction false} AtoiOfDecimal(n: nat)
    requires n <= MAX_INT
    ensures Atoi(DecimalBytes(n)) == Some(n)
  {
    var s := DecimalBytes(n);
    assert s[0] == 48 + Digits(n)[0];
    assert DigitValues(s) == Digits(n);
    ValueOfDigits(n);
  }

  // ----- Reading a frame -----

  /** The position of the first line feed. */
  function LineFeed(s: Bytes): (r: Option<nat>)
    ensures r.Some? ==> r.value < |s| && s[r.value] == LF && forall i :: 0 <= i < r.value ==> s[i] != LF
    ensures r.None? ==> forall i :: 0 <= i < |s| ==> s[i] != LF
  {
    if s == [] then None
    else if s[0] == LF then Some(0)
    else
      match LineFeed(s[1..])
      case None => None
      case Some(n) => Some(n + 1)
  }

  /** A line without its trailing carriage returns and line feeds. */
  function Stripped(line: Bytes): (r: Bytes)
    ensures r <= line
  {
    if line != [] && (line[|line| - 1] == CR || line[|line| - 1] == LF) then Stripped(line[..|line| - 1]) else line
  }

  function Lower(b: Byte): Byte {
    if 65 <= b <= 90 then b + 32 else b
  }

  const KEY := "content-length:"

  predicate IsLengthHeader(line: Bytes) {
    |line| >= |KEY| && forall i :: 0 <= i < |KEY| ==> Lower(line[i]) == KEY[i] as int
  }

  datatype Line = Blank | Length(value: int) | BadLength | Other

  function ParseLine(line: Bytes): Line {
    if line == [] then Blank
    else if IsLengthHeader(line) then
      match Atoi(TrimSpace(line[|KEY|..]))
      case None => BadLength
      case Some(n) => Length(n)
    else Other
  }

  datatype Error = EndOfStream | InvalidLength | MissingLength

  datatype FrameResult = Frame(payload: Bytes, rest: Bytes) | Failed(error: Error, rest: Bytes)

  /** Reads header lines up to the blank one, then the payload; `length` is the last length seen. */
  function ReadFrom(s: Bytes, length: int): (r: FrameResult)
    ensures |r.rest| <= |s| && (r.Frame? ==> |r.rest| < |s|)
    decreases |s|
  {
    match LineFeed(s)
    case None => Failed(EndOfStream, [])
    case Some(n) =>
      var rest := s[n + 1..];
      match ParseLine(Stripped(s[..n + 1]))
      case Blank =>
        if length < 0 then Failed(MissingLength, rest)
        else if |rest| < length then Failed(EndOfStream, [])
        else Frame(TrimSpace(rest[..length]), rest[length..])
      case Length(v) => ReadFrom(rest, v)
      case BadLength => Failed(InvalidLength, rest)
      case Other => ReadFrom(rest, length)
  }

  // ----- The two ends of the pipe -----

  function Written(payload: Bytes): Bytes {
    Ascii("Content-Length: ") + DecimalBytes(|payload|) + [CR, LF, CR, LF] + payload
  }

  class Writer {
    var bytes: Bytes

    constructor ()
      ensures bytes == []
    {
      bytes := [];
    }

    method Write(more: Bytes)
      modifies this
      ensures bytes == old(bytes) + more
    {
      bytes := bytes + more;
    }

    /** writeFrame. */
    method WriteFrame(payload: Bytes)
      modifies this
      ensures bytes == old(bytes) + Written(payload)
    {
      Write(Ascii("Content-Length: ") + DecimalBytes(|payload|) + [CR, LF, CR, LF]);
      Write(payload);
      assert bytes == old(bytes) + Written(payload);
    }
  }

  datatype Response = Response(id: Option<int>, error: Option<string>, result: Bytes)

  datatype Reply = Answer(result: Bytes) | RemoteError(message: string) | ReadError(error: Error) | DeadlineExceeded

  class Reader {
    var rest: Bytes

    constructor (bytes: Bytes)
      ensures rest == bytes
    {
      rest := bytes;
    }

    /** readFrame. */
    method ReadFrame() returns (payload: Bytes, error: Option<Error>)
      modifies this
      ensures match ReadFrom(old(rest), -1)
              case Frame(p, r) => error == None && payload == p && rest == r
              case Failed(e, r) => error == Some(e) && rest == r
    {
      var contentLength := -1;
      payload, error := [], None;
      while true
        invariant ReadFrom(old(rest), -1) == ReadFrom(rest, contentLength)
        decreases |rest|
      {
        var end := LineFeed(rest);
        if end.None? {
          rest := [];
          return [], Some(EndOfStream);
        }
        var line := ParseLine(Stripped(rest[..end.value + 1]));
        rest := rest[end.value + 1..];
        if line.Blank? {
          break;
        }
        if line.BadLength? {
          return [], Some(InvalidLength);
        }
        if line.Length? {
          contentLength := line.value;
        }
      }
      if contentLength < 0 {
        return [], Some(MissingLength);
      }
      if |rest| < contentLength {
        rest := [];
        return [], Some(EndOfStream);
      }
      payload := TrimSpace(rest[..contentLength]);
      rest := rest[contentLength..];
    }

    /** The reading loop of request: frames that do not decode, or answer something else, are
        skipped. `expired(i)` tells that the deadline has passed before the i-th frame. */
    method AwaitReply(id: int, decode: Bytes -> Option<Response>, expired: nat -> bool) returns (reply: Reply)
      modifies this
      ensures (reply, rest) == Await(old(rest), id, decode, expired, 0)
    {
      var i := 0;
      while true
        invariant Await(old(rest), id, decode, expired, 0) == Await(rest, id, decode, expired, i)
        decreases |rest|
      {
        if expired(i) {
          return DeadlineExceeded;
        }
        var frame, error := ReadFrame();
        if error.Some? {
          return ReadError(error.value);
        }
        i := i + 1;
        var resp := decode(frame);
        if resp.None? {
          continue;
        }
        if resp.value.id != Some(id) {
          continue;
        }
        if resp.value.error.Some? {
          return RemoteError(resp.value.error.value);
        }
        return Answer(resp.value.result);
      }
    }
  }

  /** The reply to request `id` on a stream, and what is left unread. */
  function Await(s: Bytes, id: int, decode: Bytes -> Option<Response>, expired: nat -> bool, i: nat): (Reply, Bytes)
    decreases |s|
  {
    if expired(i) then (DeadlineExceeded, s)
    else
      match ReadFrom(s, -1)
      case Failed(e, rest) => (ReadError(e), rest)
      case Frame(payload, rest) =>
        var resp := decode(payload);
        if resp.None? || resp.value.id != Some(id) then Await(rest, id, decode, expired, i + 1)
        else (ReplyOf(resp.value), rest)
  }

  // ----- The round trip -----

  lemma {:induction false} LineFeedAt(s: Bytes, n: nat)
    requires n < |s| && s[n] == LF && forall i :: 0 <= i < n ==> s[i] != LF
    ensures LineFeed(s) == Some(n)
  {
    var r := LineFeed(s);
    assert r.Some?;
    assert s[r.value] == LF;
  }

  /** The header line as written: the key, a space and the digits. */
  function HeaderText(n: nat): Bytes {
    Ascii("Content-Length: ") + DecimalBytes(n)
  }

  lemma {:induction false} HeaderHasNoLineEnd(n: nat)
    ensures forall i :: 0 <= i < |HeaderText(n)| ==> HeaderText(n)[i] != LF && HeaderText(n)[i] != CR
  {
    var h := HeaderText(n);
    forall i | 0 <= i < |h| ensures h[i] != LF && h[i] != CR {
      if i < 16 {
        assert h[i] == "Content-Length: "[i] as int;
      } else {
        assert h[i] == DecimalBytes(n)[i - 16];
      }
    }
  }

  lemma {:induction false} HeaderParses(n: nat)
    requires n <= MAX_INT
    ensures IsLengthHeader(HeaderText(n)) && Atoi(TrimSpace(HeaderText(n)[|KEY|..])) == Some(n)
  {
    var h, d := HeaderText(n), DecimalBytes(n);
    forall i | 0 <= i < |KEY| ensures Lower(h[i]) == KEY[i] as int {
      assert h[i] == "Content-Length: "[i] as int;
    }
    assert h[|KEY|..] == [32] + d;
    TrimOneSpace(d);
    AtoiOfDecimal(n);
  }

  lemma {:induction false} HeaderIsLength(n: nat)
    requires n <= MAX_INT
    ensures ParseLine(HeaderText(n)) == Length(n) && HeaderText(n) != []
  {
    HeaderParses(n);
  }

  lemma {:induction false} DigitIsNoSpace(s: Bytes)
    requires s != [] && 48 <= s[0] <= 57
    ensures SpaceLength(s) == 0
  {
  }

  lemma {:induction false} NoSpaceAtEnd(d: Bytes)
    requires AllDigits(d)
    ensures SpaceAtEnd(d) == 0
  {
    DigitIsNoSpace(d[|d| - 1..]);
    if |d| >= 2 { DigitIsNoSpace(d[|d| - 2..]); }
    if |d| >= 3 { DigitIsNoSpace(d[|d| - 3..]); }
  }

  lemma {:induction false} TrimOneSpace(d: Bytes)
    requires AllDigits(d)
    ensures TrimSpace([32] + d) == d
  {
    var s: Bytes := [32] + d;
    assert SpaceLength(s) == 1 && s[1..] == d;
    DigitIsNoSpace(d);
    assert TrimLeft(s) == TrimLeft(d) == d;
    NoSpaceAtEnd(d);
    assert TrimRight(d) == d;
  }

  lemma {:induction false} StrippedHeader(h: Bytes)
    requires h != [] && h[|h| - 1] != CR && h[|h| - 1] != LF
    ensures Stripped(h + [CR, LF]) == h
  {
    var two, one := h + [CR, LF], h + [CR];
    assert two[|two| - 1] == LF && two[..|two| - 1] == one;
    assert one[|one| - 1] == CR && one[..|one| - 1] == h;
    assert Stripped(one) == Stripped(h) == h;
  }

  lemma {:induction false} FirstLine(h: Bytes, after: Bytes, s: Bytes)
    requires s == h + [CR, LF] + after && h != []
    requires forall i :: 0 <= i < |h| ==> h[i] != LF && h[i] != CR
    ensures LineFeed(s) == Some(|h| + 1) && Stripped(s[..|h| + 2]) == h && s[|h| + 2..] == after
  {
    assert forall i :: 0 <= i < |h| ==> s[i] == h[i];
    assert s[|h|] == CR && s[|h| + 1] == LF;
    LineFeedAt(s, |h| + 1);
    assert s[..|h| + 2] == h + [CR, LF];
    StrippedHeader(h);
  }

  /** A header line that carries a length sets it. */
  lemma {:induction false} ReadHeader(s: Bytes, h: Bytes, after: Bytes, length: int, n: int)
    requires LineFeed(s) == Some(|h| + 1) && |s| >= |h| + 2 && Stripped(s[..|h| + 2]) == h && s[|h| + 2..] == after
    requires ParseLine(h) == Length(n)
    ensures ReadFrom(s, length) == ReadFrom(after, n)
  {
  }

  /** A blank line ends the header: the payload follows. */
  lemma {:induction false} ReadPayload(s: Bytes, payload: Bytes, more: Bytes)
    requires s == [CR, LF] + (payload + more)
    ensures ReadFrom(s, |payload|) == Frame(TrimSpace(payload), more)
  {
    LineFeedAt(s, 1);
    assert s[..2] == [CR, LF] && s[2..] == payload + more;
    BlankLine();
    assert (payload + more)[..|payload|] == payload && (payload + more)[|payload|..] == more;
  }

  lemma {:induction false} BlankLine()
    ensures Stripped([CR, LF]) == []
  {
    assert [CR, LF][..1] == [CR] && [CR][..0] == [];
    assert Stripped([CR]) == [];
  }

  lemma {:induction false} WrittenShape(payload: Bytes, more: Bytes)
    ensures Written(payload) + more == HeaderText(|payload|) + [CR, LF] + ([CR, LF] + (payload + more))
  {
    assert [CR, LF, CR, LF] == [CR, LF] + [CR, LF];
  }

  /** Reading a written frame gives the trimmed payload and leaves exactly what follows. */
  lemma {:induction false} FrameRoundTrip(payload: Bytes, more: Bytes)
    requires |payload| <= MAX_INT
    ensures ReadFrom(Written(payload) + more, -1) == Frame(TrimSpace(payload), more)
  {
    var h, n := HeaderText(|payload|), |payload|;
    var s := Written(payload) + more;
    var after := [CR, LF] + (payload + more);
    HeaderHasNoLineEnd(n);
    HeaderIsLength(n);
    WrittenShape(payload, more);
    FirstLine(h, after, s);
    ReadHeader(s, h, after, -1, n);
    ReadPayload(after, payload, more);
  }

  function WrittenAll(payloads: seq<Bytes>): Bytes {
    if payloads == [] then [] else Written(payloads[0]) + WrittenAll(payloads[1..])
  }

  predicate Fit(payloads: seq<Bytes>) {
    forall i :: 0 <= i < |payloads| ==> |payloads[i]| <= MAX_INT
  }

  /** The payloads that reading n frames in a row gives, and what is left. */
  function ReadMany(s: Bytes, n: nat): Option<(seq<Bytes>, Bytes)>
    decreases n
  {
    if n == 0 then Some(([], s))
    else
      match ReadFrom(s, -1)
      case Failed(_, _) => None
      case Frame(payload, rest) =>
        match ReadMany(rest, n - 1)
        case None => None
        case Some((more, end)) => Some(([payload] + more, end))
  }

  function Trimmed(payloads: seq<Bytes>): seq<Bytes> {
    if payloads == [] then [] else [TrimSpace(payloads[0])] + Trimmed(payloads[1..])
  }

  /** Any number of frames, written one after the other, are read back in order and consumed to the
      last byte. */
  lemma {:induction false} FramesRoundTrip(payloads: seq<Bytes>, more: Bytes)
    requires Fit(payloads)
    ensures ReadMany(WrittenAll(payloads) + more, |payloads|) == Some((Trimmed(payloads), more))
  {
    if payloads == [] {
      assert [] + more == more;
    } else {
      var rest := WrittenAll(payloads[1..]) + more;
      assert WrittenAll(payloads) + more == Written(payloads[0]) + rest;
      FrameRoundTrip(payloads[0], rest);
      FramesRoundTrip(payloads[1..], more);
    }
  }

  predicate Replies(payload: Bytes, id: int, decode: Bytes -> Option<Response>) {
    var resp := decode(TrimSpace(payload));
    resp.Some? && resp.value.id == Some(id)
  }

  lemma {:induction false} AwaitStep(s: Bytes, payload: Bytes, rest: Bytes, id: int,
                                     decode: Bytes -> Option<Response>, expired: nat -> bool, i: nat)
    requires ReadFrom(s, -1) == Frame(TrimSpace(payload), rest) && !expired(i)
    ensures Await(s, id, decode, expired, i) ==
            (if !Replies(payload, id, decode) then Await(rest, id, decode, expired, i + 1)
             else (ReplyOf(decode(TrimSpace(payload)).value), rest))
  {
  }

  function ReplyOf(resp: Response): Reply {
    if resp.error.Some? then RemoteError(resp.error.value) else Answer(resp.result)
  }

  /** On a stream of frames before the deadline, a request gets the first response that carries its
      id; earlier frames are dropped and later ones are left on the stream. */
  lemma {:induction false} FirstResponseWins(payloads: seq<Bytes>, k: nat, more: Bytes, id: int,
                                             decode: Bytes -> Option<Response>, expired: nat -> bool, i: nat)
    requires Fit(payloads) && k < |payloads| && Replies(payloads[k], id, decode)
    requires forall j :: 0 <= j < k ==> !Replies(payloads[j], id, decode)
    requires forall j :: i <= j <= i + k ==> !expired(j)
    ensures Await(WrittenAll(payloads) + more, id, decode, expired, i) ==
            (ReplyOf(decode(TrimSpace(payloads[k])).value), WrittenAll(payloads[k + 1..]) + more)
    decreases k
  {
    var tail := payloads[1..];
    FrontFrame(payloads, more, WrittenAll(tail) + more, id, decode, expired, i);
    if k > 0 {
      assert !Replies(payloads[0], id, decode);
      assert forall j :: 0 <= j < |tail| ==> tail[j] == payloads[j + 1];
      FirstResponseWins(tail, k - 1, more, id, decode, expired, i + 1);
      assert tail[k..] == payloads[k + 1..];
    }
  }

  /** What the first frame on the stream does. */
  lemma {:induction false} FrontFrame(payloads: seq<Bytes>, more: Bytes, rest: Bytes, id: int,
                                      decode: Bytes -> Option<Response>, expired: nat -> bool, i: nat)
    requires Fit(payloads) && payloads != [] && rest == WrittenAll(payloads[1..]) + more && !expired(i)
    ensures Await(WrittenAll(payloads) + more, id, decode, expired, i) ==
            (if !Replies(payloads[0], id, decode) then Await(rest, id, decode, expired, i + 1)
             else (ReplyOf(decode(TrimSpace(payloads[0])).value), rest))
  {
    assert WrittenAll(payloads) + more == Written(payloads[0]) + rest;
    FrameRoundTrip(payloads[0], rest);
    AwaitStep(WrittenAll(payloads) + more, payloads[0], rest, id, decode, expired, i);
  }
}
