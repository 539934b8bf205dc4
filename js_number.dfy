/** The integer conversions behind the store's id generator:
    `Number.parseInt(s)` without a radix, and `toString()` on a non-negative
    integer. A JavaScript NaN is None. */
module JsNumber {
  import opened Wrappers
  import opened JsString

  predicate IsDecimalDigit(c: char) {
    '0' <= c <= '9'
  }

  /** A digit of base 10 or, when `hex` holds, base 16 (either letter case). */
  predicate IsRadixDigit(c: char, hex: bool) {
    IsDecimalDigit(c) || (hex && ('a' <= c <= 'f' || 'A' <= c <= 'F'))
  }

  function DigitValue(c: char): nat {
    if IsDecimalDigit(c) then c as int - '0' as int
    else if 'a' <= c <= 'f' then c as int - 'a' as int + 10
    else if 'A' <= c <= 'F' then c as int - 'A' as int + 10
    else 0
  }

  function Radix(hex: bool): nat {
    if hex then 16 else 10
  }

  /** The length of the longest prefix of `s` made of digits. */
  function DigitRun(s: string, hex: bool): (n: nat)
    ensures n <= |s|
    ensures forall k :: 0 <= k < n ==> IsRadixDigit(s[k], hex)
    ensures n == |s| || !IsRadixDigit(s[n], hex)
  {
    if s != [] && IsRadixDigit(s[0], hex) then 1 + DigitRun(s[1..], hex) else 0
  }

  /** The value of a digit string, most significant digit first. */
  function DigitsValue(ds: string, hex: bool): nat {
    if ds == [] then 0
    else DigitsValue(ds[..|ds| - 1], hex) * Radix(hex) + DigitValue(ds[|ds| - 1])
  }

  /** `Number.parseInt(s)` with no radix argument: skip leading white space,
      then read a signed integer. */
  function ParseInt(s: string): Option<int> {
    if s != [] && IsWhiteSpace(s[0]) then ParseInt(s[1..]) else ParseSigned(s)
  }

  /** An optional sign, then base 16 after "0x" or "0X" and base 10 otherwise,
      then the longest run of digits; NaN (None) when that run is empty. */
  function ParseSigned(t: string): Option<int> {
    var negative := t != [] && t[0] == '-';
    var u := if t != [] && (t[0] == '-' || t[0] == '+') then t[1..] else t;
    var hex := |u| >= 2 && u[0] == '0' && (u[1] == 'x' || u[1] == 'X');
    var v := if hex then u[2..] else u;
    var n := DigitRun(v, hex);
    if n == 0 then None
    else
      var m: int := DigitsValue(v[..n], hex);
      var value := if negative then -m else m;
      Some(value)
  }

  function DecimalDigit(d: nat): (c: char)
    requires d < 10
    ensures IsDecimalDigit(c) && DigitValue(c) == d
  {
    ('0' as int + d) as char
  }

  /** `n.toString()` for a non-negative integer: its decimal numeral, with no
      leading zero. */
  function ToDecimal(n: nat): (r: string)
    ensures r != []
    ensures forall k :: 0 <= k < |r| ==> IsDecimalDigit(r[k])
    ensures r[0] == '0' ==> n == 0
  {
    if n < 10 then [DecimalDigit(n)] else ToDecimal(n / 10) + [DecimalDigit(n % 10)]
  }

  lemma {:induction false} DigitsValueOfToDecimal(n: nat)
    ensures DigitsValue(ToDecimal(n), false) == n
  {
    if n >= 10 {
      var s := ToDecimal(n / 10);
      var t := s + [DecimalDigit(n % 10)];
      assert t[..|t| - 1] == s;
      DigitsValueOfToDecimal(n / 10);
    }
  }

  /** Reading back the numeral `toString` writes gives the number again. */
  lemma ParseIntOfToDecimal(n: nat)
    ensures ParseInt(ToDecimal(n)) == Some(n)
  {
    var r := ToDecimal(n);
    assert !IsWhiteSpace(r[0]);
    assert DigitRun(r, false) == |r|;
    assert r[..|r|] == r;
    DigitsValueOfToDecimal(n);
  }
}
