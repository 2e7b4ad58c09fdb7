/** Bluetooth device addresses as text: framework/common/bt_addr.c. */
module Addr {
  import opened Bytes
  import opened HexText

  /** Six bytes, least significant first. */
  type Address = a: seq<Byte> | |a| == 6 witness [0, 0, 0, 0, 0, 0]

  const EMPTY: Address := [0, 0, 0, 0, 0, 0]

  /** A `const char*` that may be NULL; the text holds no NUL. */
  datatype CString = Null | Text(s: string)

  /** Six pairs of hexadecimal digits with colons between them, and nothing else. */
  predicate WellFormed(s: string) {
    |s| == 17 && forall i :: 0 <= i < 17 ==> if i % 3 == 2 then s[i] == ':' else IsHex(s[i])
  }

  /** The address a text means: the first pair is the most significant byte. */
  function Parse(s: string): Address
    requires |s| == 17
  {
    seq(6, i requires 0 <= i < 6 => PairOf(s, i))
  }

  /** The pair that gives byte `i`. */
  function PairOf(s: string, i: nat): Byte
    requires |s| == 17 && i < 6
  {
    Pair(s, 3 * (5 - i))
  }

  function Pair(s: string, i: nat): Byte
    requires i + 1 < |s|
  {
    16 * Value(s[i]) + Value(s[i + 1])
  }

  /** `bt_addr_ba2str`. */
  function Print(a: Address): (s: string)
    ensures |s| == 17
    ensures forall k :: 0 <= k < 6 ==>
              s[3 * k] == Digit(a[5 - k] / 16, true) && s[3 * k + 1] == Digit(a[5 - k] % 16, true)
  {
    ByteText(a[5], true) + ":" + ByteText(a[4], true) + ":" + ByteText(a[3], true) + ":"
    + ByteText(a[2], true) + ":" + ByteText(a[1], true) + ":" + ByteText(a[0], true)
  }

  function Field(s: string, k: nat): string
    requires |s| == 17 && k < 6
  {
    [s[3 * k], s[3 * k + 1]]
  }

  predicate Colons(s: string)
    requires |s| == 17
  {
    s[2] == s[5] == s[8] == s[11] == s[14] == ':'
  }

  /** The layout of an address: byte `5 - k` in field `k`, colons between the fields. */
  predicate Layout(s: string, a: Address) {
    |s| == 17 && Colons(s) && forall k :: 0 <= k < 6 ==> Field(s, k) == ByteText(a[5 - k], true)
  }

  lemma {:induction false} PrintLayout(a: Address)
    ensures Layout(Print(a), a)
  {
  }

  /** The place of a character in its field. */
  lemma {:induction false} PlaceInField(i: nat)
    requires i < 17
    ensures i == 3 * (i / 3) + i % 3 && i / 3 < 6
    ensures i % 3 == 2 <==> i in {2, 5, 8, 11, 14}
  {
  }

  lemma {:induction false} FieldParses(s: string, a: Address, k: nat)
    requires Layout(s, a) && k < 6
    ensures IsHex(s[3 * k]) && IsHex(s[3 * k + 1]) && Pair(s, 3 * k) == a[5 - k]
  {
    var b := a[5 - k];
    assert Field(s, k) == ByteText(b, true);
    assert s[3 * k] == Field(s, k)[0] == Digit(b / 16, true);
    assert s[3 * k + 1] == Field(s, k)[1] == Digit(b % 16, true);
    DigitValue(b / 16, true);
    DigitValue(b % 16, true);
  }

  lemma {:induction false} LayoutParses(s: string, a: Address)
    requires Layout(s, a)
    ensures WellFormed(s) && Parse(s) == a
  {
    forall i | 0 <= i < 17 ensures if i % 3 == 2 then s[i] == ':' else IsHex(s[i]) {
      PlaceInField(i);
      FieldParses(s, a, i / 3);
    }
    forall i | 0 <= i < 6 ensures Parse(s)[i] == a[i] {
      FieldParses(s, a, 5 - i);
    }
  }

  lemma {:induction false} FieldUpper(s: string, a: Address, k: nat)
    requires Layout(s, a) && k < 6
    ensures !('a' <= s[3 * k] <= 'f') && !('a' <= s[3 * k + 1] <= 'f')
  {
    assert Field(s, k) == ByteText(a[5 - k], true);
    assert s[3 * k] == Field(s, k)[0] && s[3 * k + 1] == Field(s, k)[1];
  }

  lemma {:induction false} LayoutUpper(s: string, a: Address)
    requires Layout(s, a)
    ensures forall i :: 0 <= i < 17 ==> !('a' <= s[i] <= 'f')
  {
    forall i | 0 <= i < 17 ensures !('a' <= s[i] <= 'f') {
      PlaceInField(i);
      FieldUpper(s, a, i / 3);
    }
  }

  /** Every address prints as a well-formed text, in upper case, that parses back to it. */
  lemma {:induction false} ParsePrint(a: Address)
    ensures WellFormed(Print(a)) && Parse(Print(a)) == a
    ensures forall i :: 0 <= i < 17 ==> !('a' <= Print(a)[i] <= 'f')
  {
    PrintLayout(a);
    LayoutUpper(Print(a), a);
    LayoutParses(Print(a), a);
  }

  function UpperChar(c: char): char { if 'a' <= c <= 'f' then Digit(Value(c), true) else c }

  lemma {:induction false} FieldPrints(s: string, t: string, k: nat)
    requires WellFormed(s) && Layout(t, Parse(s)) && k < 6
    ensures t[3 * k] == UpperChar(s[3 * k]) && t[3 * k + 1] == UpperChar(s[3 * k + 1])
  {
    var b := Parse(s)[5 - k];
    assert b == Pair(s, 3 * k);
    PairText(s[3 * k], s[3 * k + 1]);
    assert Field(t, k) == ByteText(b, true);
    assert t[3 * k] == Field(t, k)[0] && t[3 * k + 1] == Field(t, k)[1];
  }

  lemma {:induction false} PairText(c: char, d: char)
    requires IsHex(c) && IsHex(d)
    ensures ByteText(16 * Value(c) + Value(d), true) == [UpperChar(c), UpperChar(d)]
  {
    DigitOfValue(c);
    DigitOfValue(d);
  }

  /** Parsing forgets only the case of the digits: printing a parsed text gives it back in upper case. */
  lemma {:induction false} PrintParse(s: string)
    requires WellFormed(s)
    ensures Print(Parse(s)) == seq(17, i requires 0 <= i < 17 => UpperChar(s[i]))
  {
    var t := Print(Parse(s));
    PrintLayout(Parse(s));
    LayoutIsUpper(s, t);
  }

  lemma {:induction false} LayoutIsUpper(s: string, t: string)
    requires WellFormed(s) && Layout(t, Parse(s))
    ensures t == seq(17, i requires 0 <= i < 17 => UpperChar(s[i]))
  {
    forall i | 0 <= i < 17 ensures t[i] == UpperChar(s[i]) {
      PlaceInField(i);
      FieldPrints(s, t, i / 3);
    }
  }

  lemma {:induction false} DigitOfValue(c: char)
    requires IsHex(c)
    ensures Digit(Value(c), true) == UpperChar(c)
  {
  }

  // ----- The code -----

  /** The character a `const char*` shows at a place; the terminator ends it. */
  function At(s: string, i: nat): char { if i < |s| then s[i] else '\0' }

  /** `bachk`: whether the text is an address. */
  method Bachk(str: CString) returns (r: int)
    ensures r == 0 || r == -1
    ensures r == 0 <==> str.Text? && WellFormed(str.s)
  {
    if str.Null? {
      return -1;
    }
    var s := str.s;
    if |s| != 17 {
      return -1;
    }
    var i := 0;
    while i < 17
      invariant i % 3 == 0 && i <= 18
      invariant forall j :: 0 <= j < i && j < 17 ==> if j % 3 == 2 then s[j] == ':' else IsHex(s[j])
    {
      if !IsHex(At(s, i)) {
        return -1;
      }
      if !IsHex(At(s, i + 1)) {
        return -1;
      }
      if i + 2 == |s| {
        break;
      }
      if At(s, i + 2) != ':' {
        return -1;
      }
      i := i + 3;
    }
    return 0;
  }

  /** How many hexadecimal digits a text starts with. */
  function HexRun(s: string): (n: nat)
    ensures n <= |s|
  {
    if s == "" || !IsHex(s[0]) then 0 else 1 + HexRun(s[1..])
  }

  function HexNumber(s: string): nat {
    if s == "" then 0 else 16 * HexNumber(s[..|s| - 1]) + Value(s[|s| - 1])
  }

  /** `strtol` with base 16 on a text that starts with two hexadecimal digits: no blanks, sign or prefix
      to skip, so it reads the longest run of digits. */
  function Strtol16(s: string): nat { HexNumber(s[..HexRun(s)]) }

  /** In a well-formed text the run at a pair is that pair, because a colon or the end follows. */
  lemma {:induction false} StrtolReadsPair(s: string, k: nat)
    requires WellFormed(s) && k < 6
    ensures Strtol16(s[3 * k..]) == Pair(s, 3 * k)
  {
    var t := s[3 * k..];
    assert IsHex(s[3 * k]) && IsHex(s[3 * k + 1]);
    assert t[0] == s[3 * k] && t[1] == s[3 * k + 1];
    assert t[1..][1..] == t[2..];
    if k < 5 {
      assert (3 * k + 2) % 3 == 2 && t[2] == s[3 * k + 2] == ':';
    } else {
      assert t[2..] == "";
    }
    assert HexRun(t[2..]) == 0;
    assert HexRun(t) == 2;
    var pair := t[..2];
    assert pair[..1] == [t[0]] && [t[0]][..0] == "";
    assert HexNumber([t[0]]) == Value(t[0]);
  }

  /** `strtol` at the start of a pair, stored in a byte. */
  method ReadByte(s: string, p: nat, ghost k: nat) returns (b: Byte)
    requires WellFormed(s) && k < 6 && p == 3 * k
    ensures b == Pair(s, p)
  {
    StrtolReadsPair(s, k);
    b := Strtol16(s[p..]) % 256;
  }

  /** `bt_addr_str2ba`: an address is parsed, anything else clears the target and fails. */
  method Str2ba(str: CString, addr: array<Byte>) returns (r: int)
    requires addr.Length == 6
    modifies addr
    ensures r == 0 || r == -1
    ensures r == 0 <==> str.Text? && WellFormed(str.s)
    ensures addr[..] == if r == 0 then Parse(str.s) else EMPTY
    ensures r == 0 ==> forall k :: 0 <= k < 6 ==> addr[5 - k] == 16 * Value(str.s[3 * k]) + Value(str.s[3 * k + 1])
  {
    r := Bachk(str);
    if r < 0 {
      forall i | 0 <= i < 6 {
        addr[i] := 0;
      }
      return;
    }
    var i, p := 5, 0;
    while i >= 0
      invariant -1 <= i <= 5 && p == 3 * (5 - i)
      invariant forall j :: i < j < 6 ==> addr[j] == PairOf(str.s, j)
    {
      var b := ReadByte(str.s, p, 5 - i);
      addr[i] := b;
      i, p := i - 1, p + 3;
    }
  }

  // ----- Byte order -----

  function Reversed(a: Address): Address { [a[5], a[4], a[3], a[2], a[1], a[0]] }

  lemma {:induction false} ReversedTwice(a: Address)
    ensures forall i :: 0 <= i < 6 ==> Reversed(a)[5 - i] == a[i]
    ensures Reversed(Reversed(a)) == a
  {
  }

  /** `bt_addr_swap`: reverses into another array; onto its own source it mirrors the low half. */
  method Swap(src: array<Byte>, dest: array<Byte>)
    requires src.Length == dest.Length == 6
    modifies dest
    ensures src != dest ==> dest[..] == Reversed(old(src[..]))
    ensures src != dest ==> forall i :: 0 <= i < 6 ==> dest[5 - i] == old(src[i])
    ensures src == dest ==> forall i :: 0 <= i < 3 ==> dest[i] == dest[5 - i] == old(src[i])
    ensures src == dest ==> dest[..3] == old(src[..3]) && Reversed(dest[..]) == dest[..]
    ensures src == dest ==>
              (dest[..] == Reversed(old(src[..])) <==> old(src[..]) == Reversed(old(src[..])))
  {
    ghost var was: Address := src[..];
    for i := 0 to 6
      invariant src != dest ==> src[..] == was
      invariant src != dest ==> forall j :: 0 <= j < i ==> dest[5 - j] == was[j]
      invariant src == dest ==> dest[0] == was[0] && dest[1] == was[1] && dest[2] == was[2]
      invariant src == dest ==> (i > 0 ==> dest[5] == was[0]) && (i > 1 ==> dest[4] == was[1])
      invariant src == dest ==> (i > 2 ==> dest[3] == was[2])
    {
      dest[5 - i] := src[i];
    }
    assert src == dest ==> dest[..] == [was[0], was[1], was[2], was[2], was[1], was[0]];
  }
}
