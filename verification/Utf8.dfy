/** Bytes, and the well-formed byte sequences of UTF-8 (section 4 of RFC 3629). */
module Utf8 {

  type Byte = b: int | 0 <= b < 256

  predicate Tail(b: Byte) {
    0x80 <= b <= 0xBF
  }

  /** The length of a character by its first byte, or 0 for a byte that starts none. */
  function LeadLength(b: Byte): (n: nat)
    ensures n <= 4
  {
    if b <= 0x7F then 1
    else if 0xC2 <= b <= 0xDF then 2
    else if 0xE0 <= b <= 0xEF then 3
    else if 0xF0 <= b <= 0xF4 then 4
    else 0
  }

  /** The second byte of a character: a tail, and no overlong form, surrogate or too large value. */
  predicate SecondOk(lead: Byte, b: Byte) {
    Tail(b) &&
    match lead
    case 0xE0 => b >= 0xA0
    case 0xED => b <= 0x9F
    case 0xF0 => b >= 0x90
    case 0xF4 => b <= 0x8F
    case _ => true
  }

  /** A character of n bytes stands at the front of s. */
  predicate IsChar(s: seq<Byte>, n: nat) {
    && 0 < n <= |s| && n == LeadLength(s[0])
    && (n > 1 ==> SecondOk(s[0], s[1]))
    && (n > 2 ==> Tail(s[2]))
    && (n > 3 ==> Tail(s[3]))
  }

  predicate Valid(s: seq<Byte>) {
    s == [] || (var n := LeadLength(s[0]); IsChar(s, n) && Valid(s[n..]))
  }

  /** Whether a character stands at the front depends on its own bytes only. */
  lemma {:induction false} CharIsLocal(a: seq<Byte>, b: seq<Byte>, n: nat)
    requires n <= |a|
    ensures IsChar(a + b, n) == IsChar(a, n)
  {
  }

  lemma {:induction false} ValidStep(s: seq<Byte>, n: nat)
    requires IsChar(s, n) && Valid(s[n..])
    ensures Valid(s)
  {
  }

  lemma {:induction false} ValidTail(s: seq<Byte>) returns (n: nat)
    requires s != [] && Valid(s)
    ensures n <= 4 && IsChar(s, n) && Valid(s[n..])
  {
    n := LeadLength(s[0]);
  }

  lemma {:induction false} DropConcat(a: seq<Byte>, b: seq<Byte>, n: nat)
    requires n <= |a|
    ensures (a + b)[n..] == a[n..] + b
  {
  }

  lemma {:induction false} ValidConcat(a: seq<Byte>, b: seq<Byte>)
    requires Valid(a) && Valid(b)
    ensures Valid(a + b)
    decreases |a|
  {
    if a == [] {
      assert a + b == b;
    } else {
      var n := ValidTail(a);
      ValidConcat(a[n..], b);
      DropConcat(a, b, n);
      CharIsLocal(a, b, n);
      ValidStep(a + b, n);
    }
  }

  /** What follows a valid part of a valid sequence is valid. */
  lemma {:induction false} ValidRest(a: seq<Byte>, b: seq<Byte>)
    requires Valid(a) && Valid(a + b)
    ensures Valid(b)
    decreases |a|
  {
    if a == [] {
      assert a + b == b;
    } else {
      var n := ValidTail(a);
      CharIsLocal(a, b, n);
      DropConcat(a, b, n);
      ValidRest(a[n..], b);
    }
  }

  lemma {:induction false} ExtendCut(s: seq<Byte>, n: nat, m: nat)
    requires IsChar(s, n) && m <= |s| - n && Valid(s[n..][..m])
    ensures Valid(s[..n + m])
  {
    CharIsLocal(s[..n + m], s[n + m..], n);
    assert s[..n + m] + s[n + m..] == s;
    assert s[..n + m][n..] == s[n..][..m];
    ValidStep(s[..n + m], n);
  }

  /** Near every position of a valid sequence, at most three bytes back, it can be cut. */
  lemma {:induction false} CutNearby(s: seq<Byte>, e: nat) returns (k: nat)
    requires e <= |s| && Valid(s)
    ensures k <= e <= k + 3 && Valid(s[..k])
    decreases |s|
  {
    if s == [] {
      k := 0;
    } else {
      var n := ValidTail(s);
      if e < n {
        k := 0;
      } else {
        var m := CutNearby(s[n..], e - n);
        ExtendCut(s, n, m);
        k := n + m;
      }
    }
  }

  /** A valid sequence can be cut behind every ASCII byte. */
  lemma {:induction false} CutAfterAscii(s: seq<Byte>, i: nat)
    requires i < |s| && Valid(s) && s[i] < 0x80
    ensures Valid(s[..i + 1])
    decreases |s|
  {
    var n := ValidTail(s);
    if i < n {
      assert n == 1 && i == 0;
      assert s[1..][..0] == [];
      ExtendCut(s, 1, 0);
    } else {
      CutAfterAscii(s[n..], i - n);
      ExtendCut(s, n, i + 1 - n);
    }
  }

  // ----- What is valid -----

  /** A code point that can be encoded: up to 0x10FFFF and no surrogate. */
  predicate IsScalar(c: nat) {
    c < 0xD800 || 0xE000 <= c < 0x11_0000
  }

  /** The encoding of a code point (section 3 of RFC 3629). */
  function Encode(c: nat): (s: seq<Byte>)
    requires IsScalar(c)
    ensures |s| > 0
  {
    if c < 0x80 then [c]
    else if c < 0x800 then [0xC0 + c / 64, 0x80 + c % 64]
    else if c < 0x1_0000 then [0xE0 + c / 4096, 0x80 + c / 64 % 64, 0x80 + c % 64]
    else [0xF0 + c / 0x4_0000, 0x80 + c / 4096 % 64, 0x80 + c / 64 % 64, 0x80 + c % 64]
  }

  lemma {:induction false} EncodedIsChar(c: nat)
    requires IsScalar(c)
    ensures IsChar(Encode(c), |Encode(c)|)
  {
  }

  /** A number and its digits to the base 64. */
  lemma {:induction false} Sixties(hi: nat, lo: nat)
    requires lo < 64
    ensures (hi * 64 + lo) / 64 == hi && (hi * 64 + lo) % 64 == lo
  {
  }

  lemma {:induction false} TwoBytes(a: int, b: int) returns (c: nat)
    requires 0xC2 <= a <= 0xDF && 0x80 <= b <= 0xBF
    ensures 0x80 <= c < 0x800 && Encode(c) == [a, b]
  {
    c := (a - 0xC0) * 64 + (b - 0x80);
    Sixties(a - 0xC0, b - 0x80);
  }

  lemma {:induction false} ThreeBytes(a: int, b: int, d: int) returns (c: nat)
    requires 0xE0 <= a <= 0xEF && 0x80 <= b <= 0xBF && 0x80 <= d <= 0xBF
    requires (a == 0xE0 ==> b >= 0xA0) && (a == 0xED ==> b <= 0x9F)
    ensures 0x800 <= c < 0x1_0000 && IsScalar(c) && Encode(c) == [a, b, d]
  {
    var hi: nat := (a - 0xE0) * 64 + (b - 0x80);
    c := hi * 64 + (d - 0x80);
    Sixties(hi, d - 0x80);
    Sixties(a - 0xE0, b - 0x80);
    assert c / 4096 == hi / 64;
  }

  lemma {:induction false} FourBytes(a: int, b: int, d: int, e: int) returns (c: nat)
    requires 0xF0 <= a <= 0xF4 && 0x80 <= b <= 0xBF && 0x80 <= d <= 0xBF && 0x80 <= e <= 0xBF
    requires (a == 0xF0 ==> b >= 0x90) && (a == 0xF4 ==> b <= 0x8F)
    ensures 0x1_0000 <= c < 0x11_0000 && Encode(c) == [a, b, d, e]
  {
    var top: nat := (a - 0xF0) * 64 + (b - 0x80);
    var hi: nat := top * 64 + (d - 0x80);
    c := hi * 64 + (e - 0x80);
    Sixties(hi, e - 0x80);
    Sixties(top, d - 0x80);
    Sixties(a - 0xF0, b - 0x80);
    assert c / 4096 == hi / 64 && c / 0x4_0000 == top / 64;
  }

  /** The code point that a character encodes. */
  lemma {:induction false} CharIsEncoded(s: seq<Byte>, n: nat) returns (c: nat)
    requires IsChar(s, n)
    ensures IsScalar(c) && Encode(c) == s[..n]
  {
    if n == 1 {
      c := s[0];
    } else if n == 2 {
      c := TwoBytes(s[0], s[1]);
    } else if n == 3 {
      c := ThreeBytes(s[0], s[1], s[2]);
    } else {
      c := FourBytes(s[0], s[1], s[2], s[3]);
    }
  }

  predicate AreScalars(cs: seq<nat>) {
    forall k :: 0 <= k < |cs| ==> IsScalar(cs[k])
  }

  function Encoded(cs: seq<nat>): seq<Byte>
    requires AreScalars(cs)
  {
    if cs == [] then [] else Encode(cs[0]) + Encoded(cs[1..])
  }

  lemma {:induction false} EncodedIsValid(cs: seq<nat>)
    requires AreScalars(cs)
    ensures Valid(Encoded(cs))
  {
    if cs != [] {
      EncodedIsValid(cs[1..]);
      EncodedIsChar(cs[0]);
      CharIsLocal(Encode(cs[0]), Encoded(cs[1..]), |Encode(cs[0])|);
      assert Encoded(cs)[|Encode(cs[0])|..] == Encoded(cs[1..]);
    }
  }

  lemma {:induction false} ValidIsEncoded(s: seq<Byte>) returns (cs: seq<nat>)
    requires Valid(s)
    ensures AreScalars(cs) && Encoded(cs) == s
    decreases |s|
  {
    if s == [] {
      cs := [];
    } else {
      var n := LeadLength(s[0]);
      var c := CharIsEncoded(s, n);
      var more := ValidIsEncoded(s[n..]);
      cs := [c] + more;
      assert cs[1..] == more && s == s[..n] + s[n..];
    }
  }

  /** Valid UTF-8 is exactly what encodes a list of code points. */
  lemma {:induction false} ValidMeansEncoded(s: seq<Byte>)
    ensures Valid(s) <==> exists cs :: AreScalars(cs) && Encoded(cs) == s
  {
    if Valid(s) { var cs := ValidIsEncoded(s); }
    if cs :| AreScalars(cs) && Encoded(cs) == s { EncodedIsValid(cs); }
  }
}
