/** Decimal digits of a number, most significant first. */
module Decimal {

  function Digits(n: nat): (ds: seq<nat>)
    ensures ds != [] && forall i :: 0 <= i < |ds| ==> ds[i] < 10
  {
    if n < 10 then [n] else Digits(n / 10) + [n % 10]
  }

  /** There is no leading zero. */
  lemma {:induction false} NoLeadingZero(n: nat)
    ensures |Digits(n)| > 1 ==> Digits(n)[0] > 0
  {
    if n >= 10 { NoLeadingZero(n / 10); }
  }

  /** The number that a list of digits denotes. */
  function Value(ds: seq<nat>): nat {
    if ds == [] then 0 else 10 * Value(ds[..|ds| - 1]) + ds[|ds| - 1]
  }

  /** Reading the printed digits gives the number back. */
  lemma {:induction false} ValueOfDigits(n: nat)
    ensures Value(Digits(n)) == n
  {
    if n >= 10 {
      ValueOfDigits(n / 10);
      assert Digits(n)[..|Digits(n)| - 1] == Digits(n / 10);
    } else {
      assert [n][..0] == [];
    }
  }

  function DecimalString(n: nat): string {
    var ds := Digits(n);
    seq(|ds|, i requires 0 <= i < |ds| => (48 + ds[i]) as char)
  }

  lemma {:induction false} DigitRune(d: nat)
    requires d < 10
    ensures (48 + d) as char == "0123456789"[d]
  {
  }

  /** The string is written with the ten digits. */
  lemma {:induction false} DigitRunes(n: nat)
    ensures |DecimalString(n)| == |Digits(n)|
    ensures forall i :: 0 <= i < |Digits(n)| ==> DecimalString(n)[i] == "0123456789"[Digits(n)[i]]
  {
    forall i | 0 <= i < |Digits(n)| ensures DecimalString(n)[i] == "0123456789"[Digits(n)[i]] {
      DigitRune(Digits(n)[i]);
    }
  }
}
