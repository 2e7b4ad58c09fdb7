/** Bytes and machine words. */
module Bytes {
  type Byte = b: int | 0 <= b < 256

  const U16: nat := 0x1_0000
  const U32: nat := 0x1_0000_0000

  function LowByte(n: int): Byte { n % 256 }
}

/** Hexadecimal text, as printf writes it. */
module HexText {
  import opened Bytes

  function Digit(n: int, upper: bool): char
    requires 0 <= n < 16
  {
    if n < 10 then '0' + n as char
    else if upper then 'A' + (n - 10) as char
    else 'a' + (n - 10) as char
  }

  /** `isxdigit`. */
  predicate IsHex(c: char) { '0' <= c <= '9' || 'a' <= c <= 'f' || 'A' <= c <= 'F' }

  /** The value of a hexadecimal digit of either case. */
  function Value(c: char): (n: int)
    ensures 0 <= n < 16
  {
    if '0' <= c <= '9' then c as int - '0' as int
    else if 'a' <= c <= 'f' then c as int - 'a' as int + 10
    else if 'A' <= c <= 'F' then c as int - 'A' as int + 10
    else 0
  }

  lemma {:induction false} DigitValue(n: int, upper: bool)
    requires 0 <= n < 16
    ensures IsHex(Digit(n, upper)) && Value(Digit(n, upper)) == n
  {
  }

  /** `%02x` or `%02X` of a byte. */
  function ByteText(b: Byte, upper: bool): (t: string)
    ensures |t| == 2
  {
    [Digit(b / 16, upper), Digit(b % 16, upper)]
  }

  /** `%0<n>x` of a word below 16 to the `n`. */
  function WordText(w: nat, n: nat): (t: string)
    ensures |t| == n
  {
    if n == 0 then "" else WordText(w / 16, n - 1) + [Digit(w % 16, false)]
  }

  /** A word's text ends in the text of its low byte. */
  lemma {:induction false} LowByteLast(b: Byte, rest: nat, n: nat)
    ensures WordText(b + 256 * rest, n + 2) == WordText(rest, n) + ByteText(b, false)
  {
    var w := b + 256 * rest;
    assert w % 16 == b % 16 && w / 16 == b / 16 + 16 * rest;
    assert (w / 16) % 16 == b / 16 && (w / 16) / 16 == rest;
    assert WordText(w, n + 2) == WordText(w / 16, n + 1) + [Digit(w % 16, false)];
    assert WordText(w / 16, n + 1) == WordText((w / 16) / 16, n) + [Digit((w / 16) % 16, false)];
  }
}
