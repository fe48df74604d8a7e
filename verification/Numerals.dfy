/** Which texts the bencode parser takes for numbers and for lengths. */
module Numerals {
  import opened Wrappers
  import opened Machine
  import opened Bencode
  import Decimal

  datatype Sign = NoSign | Plus | Minus

  function SignText(sign: Sign): seq<Byte> {
    match sign
    case NoSign => []
    case Plus => [PLUS]
    case Minus => [MINUS]
  }

  predicate AreDigits(digits: seq<nat>) {
    digits != [] && forall i :: 0 <= i < |digits| ==> digits[i] < 10
  }

  function DigitBytes(digits: seq<nat>): seq<Byte>
    requires forall i :: 0 <= i < |digits| ==> digits[i] < 10
  {
    seq(|digits|, i requires 0 <= i < |digits| => digits[i] + 48)
  }

  /** The text is a sign and some digits, zeros in front allowed. */
  ghost predicate Numeral(text: seq<Byte>, sign: Sign, digits: seq<nat>) {
    AreDigits(digits) && text == SignText(sign) + DigitBytes(digits)
  }

  lemma DigitsThereAndBack(text: seq<Byte>, digits: seq<nat>)
    requires AllDigits(text)
    ensures (forall i :: 0 <= i < |text| ==> DigitValues(text)[i] < 10) && DigitBytes(DigitValues(text)) == text
    ensures (forall i :: 0 <= i < |digits| ==> digits[i] < 10) && text == DigitBytes(digits) ==>
              DigitValues(text) == digits
  {
    assert forall i :: 0 <= i < |text| ==> text[i] in text;
    if (forall i :: 0 <= i < |digits| ==> digits[i] < 10) && text == DigitBytes(digits) {
      forall i | 0 <= i < |digits|
        ensures DigitValues(text)[i] == digits[i]
      {
        assert text[i] == digits[i] + 48;
      }
    }
  }

  lemma NumeralDigits(text: seq<Byte>, sign: Sign, digits: seq<nat>)
    requires Numeral(text, sign, digits)
    ensures var body := text[|SignText(sign)|..];
            body != [] && AllDigits(body) && DigitValues(body) == digits
    ensures sign == NoSign ==> text[0] != PLUS && text[0] != MINUS
  {
    var body := text[|SignText(sign)|..];
    assert body == DigitBytes(digits);
    forall b | b in body
      ensures Decimal.IsDigit(b)
    {
      var i :| 0 <= i < |body| && body[i] == b;
      assert b == digits[i] + 48;
    }
    DigitsThereAndBack(body, digits);
    if sign == NoSign {
      assert text == body && text[0] == digits[0] + 48;
    }
  }

  function Signed(sign: Sign, magnitude: int): int {
    if sign == Minus then -magnitude else magnitude
  }

  lemma SignedIsNumeral(text: seq<Byte>) returns (sign: Sign, digits: seq<nat>)
    requires ParseI64(text).Some?
    ensures Numeral(text, sign, digits) && ParseI64(text).value == Signed(sign, Decimal.Value(digits))
  {
    var signed := |text| > 1 && (text[0] == PLUS || text[0] == MINUS);
    var body := if signed then text[1..] else text;
    sign := if !signed then NoSign else if text[0] == PLUS then Plus else Minus;
    digits := DigitValues(body);
    DigitsThereAndBack(body, []);
    assert text == SignText(sign) + body;
  }

  lemma NumeralIsSigned(text: seq<Byte>, sign: Sign, digits: seq<nat>)
    requires Numeral(text, sign, digits)
    ensures var n := Signed(sign, Decimal.Value(digits)); I64_MIN <= n <= I64_MAX ==> ParseI64(text) == Some(n)
  {
    NumeralDigits(text, sign, digits);
  }

  /** A signed number is read exactly from its numerals: a sign or none, digits, and a value of 64 bits. */
  lemma SignedIff(text: seq<Byte>, n: int)
    ensures ParseI64(text) == Some(n) <==>
            && I64_MIN <= n <= I64_MAX
            && exists sign, digits :: Numeral(text, sign, digits) && n == Signed(sign, Decimal.Value(digits))
  {
    if ParseI64(text).Some? {
      var sign, digits := SignedIsNumeral(text);
    }
    forall sign, digits | Numeral(text, sign, digits) && n == Signed(sign, Decimal.Value(digits))
      ensures I64_MIN <= n <= I64_MAX ==> ParseI64(text) == Some(n)
    {
      NumeralIsSigned(text, sign, digits);
    }
  }

  lemma UnsignedIsNumeral(text: seq<Byte>) returns (sign: Sign, digits: seq<nat>)
    requires ParseUsize(text).Some?
    ensures Numeral(text, sign, digits) && sign != Minus && ParseUsize(text).value == Decimal.Value(digits)
  {
    var signed := |text| > 1 && text[0] == PLUS;
    var body := if signed then text[1..] else text;
    sign := if signed then Plus else NoSign;
    digits := DigitValues(body);
    DigitsThereAndBack(body, []);
    assert text == SignText(sign) + body;
  }

  lemma NumeralIsUnsigned(text: seq<Byte>, sign: Sign, digits: seq<nat>)
    requires Numeral(text, sign, digits) && sign != Minus
    ensures Decimal.Value(digits) <= U64_MAX ==> ParseUsize(text) == Some(Decimal.Value(digits))
  {
    NumeralDigits(text, sign, digits);
  }

  /** A length is read exactly from its numerals: a plus sign or none, digits, and a value of 64 bits. */
  lemma UnsignedIff(text: seq<Byte>, n: nat)
    ensures ParseUsize(text) == Some(n) <==>
            && n <= U64_MAX
            && exists sign, digits :: Numeral(text, sign, digits) && sign != Minus && n == Decimal.Value(digits)
  {
    if ParseUsize(text).Some? {
      var sign, digits := UnsignedIsNumeral(text);
    }
    forall sign, digits | Numeral(text, sign, digits) && sign != Minus && n == Decimal.Value(digits)
      ensures n <= U64_MAX ==> ParseUsize(text) == Some(n)
    {
      NumeralIsUnsigned(text, sign, digits);
    }
  }
}
