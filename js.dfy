/**
 * The few JavaScript value rules the frontend relies on: numbers with NaN,
 * `Number(x)` on numbers and decimal strings, `<` against a number literal,
 * and the decimal text of an integer.
 */
module Js {

  /** A JavaScript number; infinities are not modelled. */
  datatype Number = Finite(value: real) | NaN

  /** A form or JSON value that is either a number or a string. */
  datatype Value = Num(n: Number) | Str(s: string)

  /** `x < bound`: false whenever `x` is NaN. */
  predicate LessThan(x: Number, bound: real) {
    x.Finite? && x.value < bound
  }

  predicate IsDigit(c: char) {
    '0' <= c <= '9'
  }

  predicate AllDigits(s: string) {
    forall i :: 0 <= i < |s| ==> IsDigit(s[i])
  }

  function DigitValue(c: char): (d: nat)
    requires IsDigit(c)
    ensures d < 10
  {
    (c as int - '0' as int) as nat
  }

  function DigitChar(d: nat): (c: char)
    requires d < 10
    ensures IsDigit(c) && DigitValue(c) == d
  {
    (d + '0' as int) as char
  }

  /** The value of a string of decimal digits, most significant first. */
  function DigitsValue(s: string): nat
    requires AllDigits(s)
  {
    if s == [] then 0 else DigitsValue(s[..|s| - 1]) * 10 + DigitValue(s[|s| - 1])
  }

  function Pow10(n: nat): (p: nat)
    ensures p >= 1
  {
    if n == 0 then 1 else 10 * Pow10(n - 1)
  }

  /** The position of the first '.', or the length when there is none. */
  function DotIndex(s: string): (i: nat)
    ensures i <= |s|
    ensures i < |s| ==> s[i] == '.'
    ensures forall j :: 0 <= j < i ==> s[j] != '.'
  {
    if s == [] then 0
    else if s[0] == '.' then 0
    else 1 + DotIndex(s[1..])
  }

  /** An optionally signed decimal numeral, `[+-]?d*(.d*)?` with at least one digit. */
  function ParseDecimal(s: string): (r: Number) {
    var negative := |s| > 0 && s[0] == '-';
    var body := if |s| > 0 && (s[0] == '-' || s[0] == '+') then s[1..] else s;
    var dot := DotIndex(body);
    var whole := body[..dot];
    var fraction := if dot < |body| then body[dot + 1..] else [];
    if |whole| + |fraction| == 0 || !AllDigits(whole) || !AllDigits(fraction) then
      NaN
    else
      var magnitude := DigitsValue(whole) as real + DigitsValue(fraction) as real / Pow10(|fraction|) as real;
      Finite(if negative then -magnitude else magnitude)
  }

  /** `Number(v)`: a number stays itself, the empty string is 0, a decimal numeral its value, anything else NaN. */
  function ToNumber(v: Value): (r: Number)
    ensures v.Num? ==> r == v.n
    ensures v == Str("") ==> r == Finite(0.0)
  {
    match v
    case Num(n) => n
    case Str(s) => if s == "" then Finite(0.0) else ParseDecimal(s)
  }

  /** The decimal digits of a natural number, without leading zeros. */
  function NatToString(n: nat): (s: string)
    ensures |s| >= 1 && AllDigits(s)
    ensures DigitsValue(s) == n
    ensures forall i :: 0 <= i < |s| ==> s[i] != '.'
  {
    if n < 10 then
      [DigitChar(n)]
    else
      var front := NatToString(n / 10);
      var s := front + [DigitChar(n % 10)];
      assert s[..|s| - 1] == front;
      s
  }

  /** `n.toString()` for an integer-valued number. */
  function IntToString(n: int): (s: string)
    ensures |s| >= 1
  {
    if n < 0 then "-" + NatToString(-n) else NatToString(n)
  }

  /** Reading back the text of an integer gives the integer. */
  lemma IntToStringRoundTrip(n: int)
    ensures ToNumber(Str(IntToString(n))) == Finite(n as real)
  {
    var digits := NatToString(if n < 0 then -n else n);
    var s := IntToString(n);
    var body := if |s| > 0 && (s[0] == '-' || s[0] == '+') then s[1..] else s;
    assert body == digits by {
      if n < 0 {
        assert s[1..] == digits;
      } else {
        assert s[0] != '-' && s[0] != '+' by {
          assert IsDigit(s[0]);
        }
      }
    }
    assert DotIndex(body) == |body| by {
      DotIndexAbsent(body);
    }
    assert body[..|body|] == body;
  }

  lemma {:induction false} DotIndexAbsent(s: string)
    requires forall i :: 0 <= i < |s| ==> s[i] != '.'
    ensures DotIndex(s) == |s|
  {
    if s != [] {
      DotIndexAbsent(s[1..]);
    }
  }

  /** `String(b)` for a boolean. */
  function BoolToString(b: bool): (s: string)
    ensures s == "true" <==> b
    ensures s == "false" <==> !b
  {
    if b then "true" else "false"
  }
}
