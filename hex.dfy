/**
 * Ruby's `Integer#to_s(16)` on a non-negative integer: the shortest lowercase
 * base-16 numeral, together with its inverse, used to check that the rendering
 * loses nothing.
 */
module Hex {

  predicate IsDigit(c: char) {
    '0' <= c <= '9' || 'a' <= c <= 'f'
  }

  predicate AllDigits(s: string) {
    forall i :: 0 <= i < |s| ==> IsDigit(s[i])
  }

  /** A numeral as `to_s(16)` writes it: non-empty, lowercase digits, no leading zero except "0" itself. */
  predicate Canonical(s: string) {
    |s| >= 1 && AllDigits(s) && (s[0] == '0' ==> |s| == 1)
  }

  function DigitValue(c: char): (d: nat)
    requires IsDigit(c)
    ensures d < 16
  {
    if c <= '9' then c as int - '0' as int else c as int - 'a' as int + 10
  }

  function Digit(d: nat): (c: char)
    requires d < 16
    ensures IsDigit(c) && DigitValue(c) == d
  {
    if d < 10 then (48 + d) as char else (87 + d) as char
  }

  /** `n.to_s(16)`. */
  function ToHex(n: nat): (s: string)
    ensures Canonical(s)
    ensures (s[0] == '0') == (n == 0)
  {
    if n < 16 then [Digit(n)] else ToHex(n / 16) + [Digit(n % 16)]
  }

  /** Reading a numeral back, most significant digit first. */
  function ParseHex(s: string): nat
    requires AllDigits(s)
  {
    if s == [] then 0 else ParseHex(s[..|s| - 1]) * 16 + DigitValue(s[|s| - 1])
  }

  lemma DigitOfValue(c: char)
    requires IsDigit(c)
    ensures Digit(DigitValue(c)) == c
  {
  }

  /** Reading the numeral back yields the number: `to_s(16)` loses nothing. */
  lemma {:induction false} ParseToHex(n: nat)
    ensures ParseHex(ToHex(n)) == n
  {
    var s := ToHex(n);
    if n < 16 {
      assert s[..|s| - 1] == [];
    } else {
      assert s[..|s| - 1] == ToHex(n / 16);
      ParseToHex(n / 16);
    }
  }

  /** Every canonical numeral is the rendering of the number it denotes. */
  lemma {:induction false} ToHexParse(s: string)
    requires Canonical(s)
    ensures ToHex(ParseHex(s)) == s
  {
    var init := s[..|s| - 1];
    var last := s[|s| - 1];
    if |s| == 1 {
      assert init == [];
      DigitOfValue(last);
      assert s == [last];
    } else {
      assert init[0] == s[0] && Canonical(init);
      ToHexParse(init);
      var p := ParseHex(init);
      assert p != 0;
      var n := ParseHex(s);
      assert n == p * 16 + DigitValue(last);
      assert n / 16 == p && n % 16 == DigitValue(last);
      DigitOfValue(last);
      assert s == init + [last];
    }
  }

  /** Distinct numbers get distinct numerals. */
  lemma ToHexInjective(a: nat, b: nat)
    ensures ToHex(a) == ToHex(b) <==> a == b
  {
    ParseToHex(a);
    ParseToHex(b);
  }
}
