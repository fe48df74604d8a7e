/** Decimal numerals, most significant digit first. */
module Decimal {
  import opened Machine

  /** The code of a decimal digit, in bytes and in characters. */
  predicate IsDigit(code: int) {
    48 <= code <= 57
  }

  function Value(digits: seq<nat>): nat {
    if digits == [] then 0 else 10 * Value(digits[..|digits| - 1]) + digits[|digits| - 1]
  }

  function Digits(n: nat): (r: seq<nat>)
    ensures |r| > 0 && forall i :: 0 <= i < |r| ==> r[i] < 10
  {
    if n < 10 then [n] else Digits(n / 10) + [n % 10]
  }

  lemma {:induction false} DigitsValue(n: nat)
    ensures Value(Digits(n)) == n
  {
    if n < 10 {
      assert Digits(n)[..0] == [];
    } else {
      DigitsValue(n / 10);
      assert Digits(n)[..|Digits(n)| - 1] == Digits(n / 10);
    }
  }

  /** A numeral of the given width, padded with zeros on the left when it is shorter. */
  function Padded(n: nat, width: nat): (r: seq<nat>)
    ensures |r| >= width && |r| > 0 && forall i :: 0 <= i < |r| ==> r[i] < 10
  {
    var digits := Digits(n);
    if |digits| < width then seq(width - |digits|, i => 0) + digits else digits
  }

  predicate AllZero(digits: seq<nat>) {
    forall i :: 0 <= i < |digits| ==> digits[i] == 0
  }

  lemma {:induction false} ZerosValue(zeros: seq<nat>)
    requires AllZero(zeros)
    ensures Value(zeros) == 0
  {
    if zeros != [] {
      ZerosValue(zeros[..|zeros| - 1]);
    }
  }

  lemma {:induction false} LeadingZeros(zeros: seq<nat>, digits: seq<nat>)
    requires AllZero(zeros)
    ensures Value(zeros + digits) == Value(digits)
  {
    if digits == [] {
      ZerosValue(zeros);
      assert zeros + [] == zeros;
    } else {
      LeadingZeros(zeros, digits[..|digits| - 1]);
      assert (zeros + digits)[..|zeros + digits| - 1] == zeros + digits[..|digits| - 1];
    }
  }

  lemma PaddedValue(n: nat, width: nat)
    ensures Value(Padded(n, width)) == n
  {
    DigitsValue(n);
    if |Digits(n)| < width {
      var zeros: seq<nat> := seq(width - |Digits(n)|, i => 0);
      LeadingZeros(zeros, Digits(n));
    }
  }

  /** A number below 10^width has at most `width` digits. */
  lemma {:induction false} DigitsShort(n: nat, width: nat)
    requires width > 0 && n < Power(10, width)
    ensures |Digits(n)| <= width
  {
    if n >= 10 {
      DigitsShort(n / 10, width - 1);
    }
  }
}
