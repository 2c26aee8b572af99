/** Character classes and decimal digits, as the lexer and the token display use them. */
module Text {

  /** An ASCII decimal digit: the characters that `char::to_digit(10)` accepts. */
  predicate IsDigit(c: char) {
    '0' <= c <= '9'
  }

  /** Letters and digits that continue an identifier; only the ASCII ones are modelled. */
  predicate IsAlphanumeric(c: char) {
    'a' <= c <= 'z' || 'A' <= c <= 'Z' || IsDigit(c)
  }

  /** The Unicode White_Space characters, which is what `char::is_whitespace` tests. */
  predicate IsWhitespace(c: char) {
    var x := c as int;
    (0x09 <= x <= 0x0D) || x == 0x20 || x == 0x85 || x == 0xA0 || x == 0x1680
    || (0x2000 <= x <= 0x200A) || x == 0x2028 || x == 0x2029 || x == 0x202F
    || x == 0x205F || x == 0x3000
  }

  predicate AllDigits(ds: seq<char>) {
    forall k :: 0 <= k < |ds| ==> IsDigit(ds[k])
  }

  function DigitValue(c: char): (d: nat)
    requires IsDigit(c)
    ensures d < 10
  {
    (c as int) - ('0' as int)
  }

  function DigitChar(d: nat): (c: char)
    requires d < 10
    ensures IsDigit(c) && DigitValue(c) == d
  {
    ('0' as int + d) as char
  }

  /** The value of a run of decimal digits, most significant first: each
      further digit multiplies what was read so far by ten and adds itself. */
  function DecimalValue(ds: seq<char>): nat
    requires AllDigits(ds)
    decreases |ds|
  {
    if ds == [] then 0
    else DecimalValue(ds[..|ds| - 1]) * 10 + DigitValue(ds[|ds| - 1])
  }

  /** The decimal text of a natural number, without leading zeros. */
  function NatToDecimal(n: nat): (ds: seq<char>)
    ensures |ds| > 0 && AllDigits(ds)
    ensures |ds| > 1 ==> ds[0] != '0'
    decreases n
  {
    if n < 10 then [DigitChar(n)] else NatToDecimal(n / 10) + [DigitChar(n % 10)]
  }

  /** Reading back the decimal text of n gives n. */
  lemma {:induction false} DecimalValueOfNatToDecimal(n: nat)
    ensures DecimalValue(NatToDecimal(n)) == n
    decreases n
  {
    var ds := NatToDecimal(n);
    if n >= 10 {
      DecimalValueOfNatToDecimal(n / 10);
      assert ds[..|ds| - 1] == NatToDecimal(n / 10);
    } else {
      assert ds[..|ds| - 1] == [];
    }
  }

  /** The decimal text of an `i32` as `Display` prints it: a minus sign before
      the digits of a negative number. */
  function IntToDecimal(n: int): seq<char> {
    if n < 0 then ['-'] + NatToDecimal(-n) else NatToDecimal(n)
  }
}
