/** Decimal numerals of non-negative integers, and the four-digit room codes
    drawn from `Math.random`. Below 10^21, which covers every room code, the
    numeral is what JavaScript's `Number.prototype.toString` prints; from
    10^21 on JavaScript switches to exponent form, which is not modelled. */
module Decimal {

  predicate IsDigit(c: char)
  {
    '0' <= c <= '9'
  }

  /** A non-empty string of decimal digits. */
  predicate IsNumeral(s: string)
  {
    |s| >= 1 && forall i :: 0 <= i < |s| ==> IsDigit(s[i])
  }

  function DigitChar(d: nat): (c: char)
    requires d < 10
    ensures IsDigit(c)
  {
    ('0' as int + d) as char
  }

  function DigitValue(c: char): (d: nat)
    requires IsDigit(c)
    ensures d < 10
  {
    c as int - '0' as int
  }

  /** The decimal representation of `n`, without leading zeros (positional
      notation at every size, unlike JavaScript from 10^21 on). */
  function Numeral(n: nat): (s: string)
    ensures IsNumeral(s)
    ensures n > 0 ==> s[0] != '0'
    ensures |s| == 1 <==> n < 10
    decreases n
  {
    if n < 10 then [DigitChar(n)] else Numeral(n / 10) + [DigitChar(n % 10)]
  }

  /** The number a numeral denotes. */
  function Value(s: string): nat
    requires forall i :: 0 <= i < |s| ==> IsDigit(s[i])
    decreases |s|
  {
    if |s| == 0 then 0 else 10 * Value(s[..|s| - 1]) + DigitValue(s[|s| - 1])
  }

  /** Reading back a numeral gives the number it was produced from. */
  lemma {:induction false} ValueOfNumeral(n: nat)
    ensures Value(Numeral(n)) == n
    decreases n
  {
    var s := Numeral(n);
    if n >= 10 {
      ValueOfNumeral(n / 10);
      assert s[..|s| - 1] == Numeral(n / 10);
    }
  }

  /** Numbers in [1000, 9999] are written with exactly four digits. */
  lemma FourDigitNumeral(n: nat)
    requires 1000 <= n <= 9999
    ensures |Numeral(n)| == 4
  {
    assert |Numeral(n / 10 / 10 / 10)| == 1;
    assert |Numeral(n / 10 / 10)| == 2;
    assert |Numeral(n / 10)| == 3;
  }

  /** The room code `Math.floor(1000 + Math.random() * 9000).toString()`,
      with `Math.floor(Math.random() * 9000)` passed in as `draw`. */
  function RoomCodeFromDraw(draw: int): (code: string)
    requires 0 <= draw < 9000
    ensures |code| == 4 && IsNumeral(code) && code[0] != '0'
    ensures Value(code) == 1000 + draw
    ensures 1000 <= Value(code) <= 9999
  {
    ValueOfNumeral(1000 + draw);
    FourDigitNumeral(1000 + draw);
    Numeral(1000 + draw)
  }
}
