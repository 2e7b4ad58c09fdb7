/** Bluetooth UUIDs of three widths: framework/common/bt_uuid.c. */
module Uuid {
  import opened Bytes
  import opened HexText

  type Word16 = n: int | 0 <= n < U16
  type Word32 = n: int | 0 <= n < U32

  /** The sixteen bytes of a 128-bit UUID, least significant first. */
  type Wide = s: seq<Byte> | |s| == 16 witness [0, 0, 0, 0, 0, 0, 0, 0, 0, 0, 0, 0, 0, 0, 0, 0]

  /** A `bt_uuid_t`; `Other` has a type the code does not know. */
  datatype Uuid = Uuid16(v16: Word16) | Uuid32(v32: Word32) | Uuid128(bytes: Wide) | Other

  /** `bt_uuid128_base`, and the place of the short value in it. */
  const BASE: Wide := [0xFB, 0x34, 0x9B, 0x5F, 0x80, 0, 0, 0x80, 0, 0x10, 0, 0, 0, 0, 0, 0]
  const ZERO: Wide := [0, 0, 0, 0, 0, 0, 0, 0, 0, 0, 0, 0, 0, 0, 0, 0]
  const OFFSET := 12

  /** `bt_uuid_to_uuid128` into a zeroed target, as the comparison and the printing call it. */
  function Widen(u: Uuid): Wide {
    match u
    case Uuid16(v) => BASE[OFFSET := LowByte(v)][OFFSET + 1 := LowByte(v / 256)]
    case Uuid32(v) => BASE[OFFSET := LowByte(v)][OFFSET + 1 := LowByte(v / 256)]
                          [OFFSET + 2 := LowByte(v / 0x1_0000)][OFFSET + 3 := LowByte(v / 0x100_0000)]
    case Uuid128(bytes) => bytes
    case Other => ZERO
  }

  /** `bt_uuid_to_uuid16` over a target holding `was`; the 32-bit form is not supported. */
  function Narrow(u: Uuid, was: Uuid): Uuid {
    match u
    case Uuid16(v) => u
    case Uuid32(v) => was
    case Uuid128(bytes) => Uuid16(bytes[OFFSET] as int + 256 * bytes[OFFSET + 1] as int)
    case Other => was
  }

  /** `memcmp`: the sign of the first difference. */
  function Memcmp(a: seq<Byte>, b: seq<Byte>): int
    requires |a| == |b|
  {
    if a == [] then 0
    else if a[0] < b[0] then -1
    else if a[0] > b[0] then 1
    else Memcmp(a[1..], b[1..])
  }

  /** `bt_uuid_compare`. */
  function Compare(a: Uuid, b: Uuid): int { Memcmp(Widen(a), Widen(b)) }

  /** The number little-endian bytes stand for, as `STREAM_TO_UINT16` and `STREAM_TO_UINT32` read it. */
  function Number(bytes: seq<Byte>): nat {
    if bytes == [] then 0 else bytes[0] as int + 256 * Number(bytes[1..])
  }

  // ----- Widening and narrowing -----

  /** A 128-bit UUID built on the base from a 16-bit value. */
  predicate OnBase16(w: Wide) {
    (forall i :: 0 <= i < OFFSET ==> w[i] == BASE[i]) && w[OFFSET + 2] == w[OFFSET + 3] == 0
  }

  /** Narrowing undoes 16-bit widening. */
  lemma {:induction false} NarrowWiden(v: Word16, was: Uuid)
    ensures Narrow(Uuid128(Widen(Uuid16(v))), was) == Uuid16(v)
    ensures Narrow(Uuid16(v), was) == Uuid16(v)
    ensures forall w: Word32 :: Narrow(Uuid32(w), was) == was
    ensures OnBase16(Widen(Uuid16(v)))
  {
  }

  /** Narrowing a 128-bit UUID keeps its meaning exactly when it is built on the base; outside, the
      narrowed form names another UUID. */
  lemma {:induction false} NarrowKeepsMeaningIff(w: Wide, was: Uuid)
    ensures Compare(Uuid128(w), Narrow(Uuid128(w), was)) == 0 <==> OnBase16(w)
  {
    var n := Narrow(Uuid128(w), was);
    MemcmpZeroIff(w, Widen(n));
    assert LowByte(n.v16) == w[OFFSET] && LowByte(n.v16 / 256) == w[OFFSET + 1];
    if OnBase16(w) {
      assert forall i :: 0 <= i < 16 ==> w[i] == Widen(n)[i];
      assert w == Widen(n);
    } else if w == Widen(n) {
      NarrowWiden(n.v16, was);
      assert false;
    }
  }

  // ----- The comparison -----

  lemma {:induction false} MemcmpZeroIff(a: seq<Byte>, b: seq<Byte>)
    requires |a| == |b|
    ensures Memcmp(a, b) == 0 <==> a == b
  {
    if a == [] {
    } else {
      MemcmpZeroIff(a[1..], b[1..]);
      assert a == [a[0]] + a[1..] && b == [b[0]] + b[1..];
    }
  }

  lemma {:induction false} MemcmpFlips(a: seq<Byte>, b: seq<Byte>)
    requires |a| == |b|
    ensures Memcmp(a, b) == -Memcmp(b, a) && -1 <= Memcmp(a, b) <= 1
  {
    if a == [] {
    } else {
      MemcmpFlips(a[1..], b[1..]);
    }
  }

  lemma {:induction false} MemcmpTransitive(a: seq<Byte>, b: seq<Byte>, c: seq<Byte>)
    requires |a| == |b| == |c| && Memcmp(a, b) <= 0 && Memcmp(b, c) <= 0
    ensures Memcmp(a, c) <= 0 && (Memcmp(a, c) == 0 ==> Memcmp(a, b) == 0 == Memcmp(b, c))
  {
    if a != [] && a[0] == b[0] == c[0] {
      MemcmpTransitive(a[1..], b[1..], c[1..]);
    }
  }

  /** The first byte that differs decides, least significant end first, as `memcmp` reads them. */
  lemma {:induction false} FirstDifferenceDecides(a: Uuid, b: Uuid, i: nat)
    requires i < 16 && Widen(a)[..i] == Widen(b)[..i] && Widen(a)[i] != Widen(b)[i]
    ensures Compare(a, b) < 0 <==> Widen(a)[i] < Widen(b)[i]
    ensures Compare(a, b) > 0 <==> Widen(a)[i] > Widen(b)[i]
  {
    MemcmpDecides(Widen(a), Widen(b), i);
  }

  lemma {:induction false} MemcmpDecides(a: seq<Byte>, b: seq<Byte>, i: nat)
    requires |a| == |b| && i < |a| && a[..i] == b[..i] && a[i] != b[i]
    ensures Memcmp(a, b) == if a[i] < b[i] then -1 else 1
  {
    if i == 0 {
    } else {
      assert a[..i][0] == b[..i][0];
      assert a[1..][..i - 1] == a[..i][1..] && b[1..][..i - 1] == b[..i][1..];
      MemcmpDecides(a[1..], b[1..], i - 1);
    }
  }

  /** The comparison is a total order on what UUIDs mean, whatever their widths. */
  lemma {:induction false} CompareIsOrder(a: Uuid, b: Uuid, c: Uuid)
    ensures Compare(a, b) == 0 <==> Widen(a) == Widen(b)
    ensures Compare(a, b) == -Compare(b, a)
    ensures Compare(a, b) <= 0 && Compare(b, c) <= 0 ==> Compare(a, c) <= 0
  {
    MemcmpZeroIff(Widen(a), Widen(b));
    MemcmpFlips(Widen(a), Widen(b));
    if Compare(a, b) <= 0 && Compare(b, c) <= 0 {
      MemcmpTransitive(Widen(a), Widen(b), Widen(c));
    }
  }

  /** A four-byte word is the sum of its bytes. */
  lemma {:induction false} BytesOfWord(v: Word32)
    ensures v == LowByte(v) + 256 * LowByte(v / 256) + 0x1_0000 * LowByte(v / 0x1_0000)
                 + 0x100_0000 * LowByte(v / 0x100_0000)
  {
    assert v / 0x1_0000 == (v / 256) / 256;
    assert v / 0x100_0000 == ((v / 256) / 256) / 256;
    assert v / 0x100_0000 < 256;
  }

  /** What the widened bytes say of the number: a short UUID means its value, whichever width holds it. */
  lemma {:induction false} ShortMeaning(u: Uuid)
    requires u.Uuid16? || u.Uuid32?
    ensures var w := Widen(u);
            && (forall i :: 0 <= i < OFFSET ==> w[i] == BASE[i])
            && Number(w[OFFSET..]) == Short(u)
  {
    BytesOfWord(Short(u));
    NumberOfFour(Widen(u)[OFFSET..]);
  }

  lemma {:induction false} NumberOfFour(s: seq<Byte>)
    requires |s| == 4
    ensures Number(s) == s[0] as int + 256 * s[1] as int + 0x1_0000 * s[2] as int + 0x100_0000 * s[3] as int
  {
    assert Number(s) == s[0] as int + 256 * Number(s[1..]);
    assert Number(s[1..]) == s[1] as int + 256 * Number(s[2..]) by { assert s[1..][1..] == s[2..]; }
    assert Number(s[2..]) == s[2] as int + 256 * Number(s[3..]) by { assert s[2..][1..] == s[3..]; }
    assert Number(s[3..]) == s[3];
  }

  function Short(u: Uuid): Word32
    requires u.Uuid16? || u.Uuid32?
  {
    if u.Uuid16? then u.v16 else u.v32
  }

  /** Short UUIDs of either width compare equal exactly when their values are equal. */
  lemma {:induction false} WidthsAgree(a: Uuid, b: Uuid)
    requires (a.Uuid16? || a.Uuid32?) && (b.Uuid16? || b.Uuid32?)
    ensures Compare(a, b) == 0 <==> Short(a) == Short(b)
  {
    MemcmpZeroIff(Widen(a), Widen(b));
    ShortMeaning(a);
    ShortMeaning(b);
    if Short(a) == Short(b) {
      SameValueSameUuid(a);
      SameValueSameUuid(b);
    }
  }

  /** A 16-bit value widens as the equal 32-bit value. */
  lemma {:induction false} SameValueSameUuid(a: Uuid)
    requires a.Uuid16? || a.Uuid32?
    ensures Widen(a) == Widen(Uuid32(Short(a)))
  {
    if a.Uuid16? {
      var v: int := a.v16;
      assert v / 0x1_0000 == 0 && v / 0x100_0000 == 0;
      assert BASE[OFFSET + 2] == 0 && BASE[OFFSET + 3] == 0;
      assert Widen(a) == Widen(Uuid32(v));
    }
  }

  // ----- The text -----

  /** The text before it meets the buffer: `%08x-%04x-%04x-%04x-%08x%04x` of the words read in turn. */
  function FullText(p: Wide): (t: string)
    ensures |t| == 36
  {
    Head(p) + WordText(Number(p[..2]), 4)
  }

  function Head(p: Wide): (t: string)
    ensures |t| == 32
  {
    WordText(Number(p[12..]), 8) + "-" + WordText(Number(p[10..12]), 4) + "-" + WordText(Number(p[8..10]), 4) + "-"
    + WordText(Number(p[6..8]), 4) + "-" + WordText(Number(p[2..6]), 8)
  }

  /** What `snprintf` leaves of it in a buffer of `len` bytes, the terminator apart. */
  function Cut(t: string, len: nat): (r: string)
    ensures r <= t && (len > 0 ==> |r| < len) && (r != t ==> |r| == if len == 0 then 0 else len - 1)
  {
    t[..if len == 0 then 0 else if len <= |t| then len - 1 else |t|]
  }

  /** `bt_uuid_to_string` into a buffer of `len` bytes. */
  function ToText(u: Uuid, len: nat): string { Cut(FullText(Widen(u)), len) }

  /** The hexadecimal digits of little-endian bytes, most significant first. */
  function Hex(bytes: seq<Byte>): (t: string)
    ensures |t| == 2 * |bytes|
  {
    if bytes == [] then "" else Hex(bytes[1..]) + ByteText(bytes[0], false)
  }

  lemma {:induction false} WordIsHex(bytes: seq<Byte>)
    ensures WordText(Number(bytes), 2 * |bytes|) == Hex(bytes)
  {
    if bytes == [] {
    } else {
      var rest := bytes[1..];
      var n := 2 * |rest|;
      WordIsHex(rest);
      LowByteLast(bytes[0], Number(rest), n);
      assert 2 * |bytes| == n + 2 && Number(bytes) == bytes[0] + 256 * Number(rest);
    }
  }

  /** The text is the bytes in hexadecimal, most significant first, grouped 8-4-4-4-12. */
  function Grouped(p: Wide): string {
    Hex(p[12..]) + "-" + Hex(p[10..12]) + "-" + Hex(p[8..10]) + "-" + Hex(p[6..8]) + "-" + Hex(p[..6])
  }

  lemma {:induction false} HexAppend(a: seq<Byte>, b: seq<Byte>)
    ensures Hex(a + b) == Hex(b) + Hex(a)
  {
    if a == [] {
      assert a + b == b;
    } else {
      HexAppend(a[1..], b);
      assert (a + b)[1..] == a[1..] + b;
    }
  }

  lemma {:induction false} TextOfBytes(p: Wide)
    ensures FullText(p) == Grouped(p)
  {
    WordIsHex(p[12..]);
    WordIsHex(p[10..12]);
    WordIsHex(p[8..10]);
    WordIsHex(p[6..8]);
    WordIsHex(p[2..6]);
    WordIsHex(p[..2]);
    LastGroup(p);
    Associate(Hex(p[12..]) + "-" + Hex(p[10..12]) + "-" + Hex(p[8..10]) + "-" + Hex(p[6..8]) + "-",
              Hex(p[2..6]), Hex(p[..2]));
  }

  /** A 128-bit UUID prints as its own bytes; a short one as its value in eight digits on the Bluetooth base
      UUID. */
  lemma {:induction false} TextOfEach(u: Uuid, len: nat)
    requires len >= 37
    ensures u.Uuid128? ==> ToText(u, len) == Grouped(u.bytes)
    ensures u.Uuid16? || u.Uuid32? ==> ToText(u, len) == WordText(Short(u), 8) + "-0000-1000-8000-00805f9b34fb"
  {
    WholeText(FullText(Widen(u)), len);
    TextOfBytes(Widen(u));
    if u.Uuid16? || u.Uuid32? {
      ShortMeaning(u);
      BaseText(Widen(u));
    }
  }

  lemma {:induction false} BaseText(w: Wide)
    requires forall i :: 0 <= i < OFFSET ==> w[i] == BASE[i]
    ensures FullText(w) == WordText(Number(w[12..]), 8) + "-0000-1000-8000-00805f9b34fb"
  {
    WordIsHex(w[12..]);
    TextOfBytes(w);
    BaseGroups(w);
    Regroup(Hex(w[12..]), "0000", "1000", "8000", "00805f9b34fb");
    BaseTail();
  }

  lemma {:induction false} BaseGroups(w: Wide)
    requires forall i :: 0 <= i < OFFSET ==> w[i] == BASE[i]
    ensures Hex(w[10..12]) == "0000" && Hex(w[8..10]) == "1000" && Hex(w[6..8]) == "8000"
    ensures Hex(w[..6]) == "00805f9b34fb"
  {
    assert w[10..12] == [0, 0] && w[8..10] == [0, 0x10] && w[6..8] == [0, 0x80];
    assert w[..6] == [0xFB, 0x34, 0x9B, 0x5F, 0x80, 0];
    HexOfTwo(0, 0);
    HexOfTwo(0, 0x10);
    HexOfTwo(0, 0x80);
    HexOfBase();
  }

  lemma {:induction false} Regroup(h: string, a: string, b: string, c: string, d: string)
    ensures h + "-" + a + "-" + b + "-" + c + "-" + d == h + ("-" + a + "-" + b + "-" + c + "-" + d)
  {
  }

  lemma BaseTail()
    ensures "-" + "0000" + "-" + "1000" + "-" + "8000" + "-" + "00805f9b34fb" == "-0000-1000-8000-00805f9b34fb"
  {
  }

  lemma {:induction false} HexOfTwo(a: Byte, b: Byte)
    ensures Hex([a, b]) == ByteText(b, false) + ByteText(a, false)
  {
    assert [a, b][1..] == [b] && [b][1..] == [];
    assert Hex([b]) == Hex([]) + ByteText(b, false) && Hex([]) == "";
    assert "" + ByteText(b, false) == ByteText(b, false);
  }

  lemma HexOfBase()
    ensures Hex([0xFB, 0x34, 0x9B, 0x5F, 0x80, 0]) == "00805f9b34fb"
  {
    HexOfTwo(0xFB, 0x34);
    HexOfTwo(0x9B, 0x5F);
    HexOfTwo(0x80, 0);
    HexAppend([0xFB, 0x34], [0x9B, 0x5F, 0x80, 0]);
    HexAppend([0x9B, 0x5F], [0x80, 0]);
    assert [0xFB, 0x34] + [0x9B, 0x5F, 0x80, 0] == [0xFB, 0x34, 0x9B, 0x5F, 0x80, 0];
    assert [0x9B, 0x5F] + [0x80, 0] == [0x9B, 0x5F, 0x80, 0];
    assert "0080" + "5f9b" + "34fb" == "00805f9b34fb";
  }

  lemma {:induction false} LastGroup(p: Wide)
    ensures Hex(p[..6]) == Hex(p[2..6]) + Hex(p[..2])
  {
    HexAppend(p[..2], p[2..6]);
    assert p[..2] + p[2..6] == p[..6];
  }

  lemma {:induction false} Associate(a: string, b: string, c: string)
    ensures (a + b) + c == a + (b + c)
  {
  }

  lemma {:induction false} HexInjective(a: seq<Byte>, b: seq<Byte>)
    requires |a| == |b| && Hex(a) == Hex(b)
    ensures a == b
  {
    if a == [] {
    } else {
      TailsEqual(Hex(a[1..]), ByteText(a[0], false), Hex(b[1..]), ByteText(b[0], false));
      HexInjective(a[1..], b[1..]);
      ByteTextInjective(a[0], b[0]);
      assert a == [a[0]] + a[1..] && b == [b[0]] + b[1..];
    }
  }

  lemma {:induction false} ByteTextInjective(a: Byte, b: Byte)
    requires ByteText(a, false) == ByteText(b, false)
    ensures a == b
  {
    DigitValue(a / 16, false);
    DigitValue(a % 16, false);
    DigitValue(b / 16, false);
    DigitValue(b % 16, false);
  }

  lemma {:induction false} TailsEqual(a: string, x: string, b: string, y: string)
    requires |x| == |y| && a + x == b + y
    ensures a == b && x == y
  {
    assert |a| == |b|;
    assert a == (a + x)[..|a|] && b == (b + y)[..|a|];
    assert x == (a + x)[|a|..] && y == (b + y)[|a|..];
  }

  lemma {:induction false} GroupedInjective(p: Wide, q: Wide)
    requires Grouped(p) == Grouped(q)
    ensures p == q
  {
    var p1, q1 := Hex(p[12..]) + "-", Hex(q[12..]) + "-";
    var p2, q2 := p1 + Hex(p[10..12]) + "-", q1 + Hex(q[10..12]) + "-";
    var p3, q3 := p2 + Hex(p[8..10]) + "-", q2 + Hex(q[8..10]) + "-";
    TailsEqual(p3 + Hex(p[6..8]) + "-", Hex(p[..6]), q3 + Hex(q[6..8]) + "-", Hex(q[..6]));
    GroupEqual(p3, p[6..8], q3, q[6..8]);
    GroupEqual(p2, p[8..10], q2, q[8..10]);
    GroupEqual(p1, p[10..12], q1, q[10..12]);
    TailsEqual(Hex(p[12..]), "-", Hex(q[12..]), "-");
    HexInjective(p[12..], q[12..]);
    HexInjective(p[..6], q[..6]);
    assert p == p[..6] + p[6..8] + p[8..10] + p[10..12] + p[12..];
    assert q == q[..6] + q[6..8] + q[8..10] + q[10..12] + q[12..];
  }

  lemma {:induction false} GroupEqual(s: string, a: seq<Byte>, t: string, b: seq<Byte>)
    requires |a| == |b| && (s + Hex(a)) + "-" == (t + Hex(b)) + "-"
    ensures s == t && a == b
  {
    TailsEqual(s + Hex(a), "-", t + Hex(b), "-");
    TailsEqual(s, Hex(a), t, Hex(b));
    HexInjective(a, b);
  }

  lemma {:induction false} FullTextInjective(p: Wide, q: Wide)
    ensures FullText(p) == FullText(q) <==> p == q
  {
    if FullText(p) == FullText(q) {
      TextOfBytes(p);
      TextOfBytes(q);
      GroupedInjective(p, q);
    }
  }

  /** With room for 36 characters and the terminator, two UUIDs print alike exactly when they compare
      equal. */
  lemma {:induction false} TextAgreesWithCompare(a: Uuid, b: Uuid, len: nat)
    requires len >= 37
    ensures ToText(a, len) == ToText(b, len) <==> Compare(a, b) == 0
  {
    var p, q := Widen(a), Widen(b);
    MemcmpZeroIff(p, q);
    FullTextInjective(p, q);
    WholeText(FullText(p), len);
    WholeText(FullText(q), len);
  }

  lemma {:induction false} WholeText(t: string, len: nat)
    requires |t| < len
    ensures Cut(t, len) == t
  {
  }

  /** Same text for different UUIDs. */
  ghost predicate Ambiguous(a: Uuid, b: Uuid, len: nat) { ToText(a, len) == ToText(b, len) && Compare(a, b) != 0 }

  /** A shorter buffer loses that: some two different UUIDs print alike if and only if it holds at most
      36 bytes. */
  lemma {:induction false} AmbiguousIffShort(len: nat)
    ensures (exists a, b :: Ambiguous(a, b, len)) <==> len <= 36
  {
    if len <= 36 {
      ShortIsAmbiguous(len);
    } else {
      forall a, b ensures !Ambiguous(a, b, len) {
        TextAgreesWithCompare(a, b, len);
      }
    }
  }

  lemma {:induction false} ShortIsAmbiguous(len: nat)
    requires len <= 36
    ensures Ambiguous(Uuid128(ZERO), Uuid128(ZERO[0 := 1]), len)
  {
    var q: Wide := ZERO[0 := 1];
    LowByteCutOff(ZERO, q, len);
    MemcmpZeroIff(ZERO, q);
    assert ZERO[0] != q[0];
  }

  lemma {:induction false} LowByteCutOff(p: Wide, q: Wide, len: nat)
    requires p[2..] == q[2..] && p[0] == p[1] == q[1] == 0 && q[0] == 1 && len <= 36
    ensures Cut(FullText(p), len) == Cut(FullText(q), len)
  {
    SameHead(p, q);
    SameStart(p, q);
    CutsAgree(Head(p), WordText(Number(p[..2]), 4), WordText(Number(q[..2]), 4), len);
  }

  lemma {:induction false} SameHead(p: Wide, q: Wide)
    requires p[2..] == q[2..]
    ensures Head(p) == Head(q)
  {
    var r := p[2..];
    assert p[12..] == r[10..] == q[12..];
    assert p[10..12] == r[8..10] == q[10..12];
    assert p[8..10] == r[6..8] == q[8..10];
    assert p[6..8] == r[4..6] == q[6..8];
    assert p[2..6] == r[..4] == q[2..6];
  }

  /** The words 0 and 1 differ in their last digit only. */
  lemma {:induction false} SameStart(p: Wide, q: Wide)
    requires p[0] == p[1] == q[1] == 0 && q[0] == 1
    ensures WordText(Number(p[..2]), 4)[..3] == WordText(Number(q[..2]), 4)[..3]
  {
    assert p[..2] == [0, 0] && q[..2] == [1, 0];
    assert Number([0, 0]) == 0 && Number([1, 0]) == 1;
    assert WordText(0, 4) == WordText(0, 3) + [Digit(0, false)];
    assert WordText(1, 4) == WordText(0, 3) + [Digit(1, false)];
  }

  lemma {:induction false} CutsAgree(h: string, s: string, t: string, len: nat)
    requires |h| == 32 && |s| == |t| == 4 && s[..3] == t[..3] && len <= 36
    ensures Cut(h + s, len) == Cut(h + t, len)
  {
    assert (h + s)[..35] == h + s[..3] == h + t[..3] == (h + t)[..35];
    var n := if len == 0 then 0 else len - 1;
    assert (h + s)[..n] == (h + s)[..35][..n] && (h + t)[..n] == (h + t)[..35][..n];
  }
}
