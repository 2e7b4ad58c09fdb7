/** Advertising data: the builder of framework/common/advertiser_data.c and the walker of
    framework/common/advertiser_data_helper.c (length-type-value records, section 11 of Bluetooth
    Core Specification Vol 3 Part C). */
module AdvData {
  import opened Bytes
  import Uuid

  const AD_FLAGS: Byte := 0x01
  const AD_UUID16_ALL: Byte := 0x03
  const AD_UUID128_ALL: Byte := 0x07
  const AD_NAME_SHORT: Byte := 0x08
  const AD_NAME_COMPLETE: Byte := 0x09
  const AD_SERVICE_DATA16: Byte := 0x16
  const AD_GAP_APPEARANCE: Byte := 0x19
  const AD_SERVICE_DATA128: Byte := 0x21
  const AD_MANUFACTURER_DATA: Byte := 0xff
  const AD_NAME_LEN: nat := 29

  // ----- Records -----

  /** The memory of an `adv_data_t`: length byte, type byte, data.  At least `length + 1` bytes of it
      are allocated. */
  predicate IsRecord(m: seq<Byte>) { |m| >= 2 && m[0] + 1 <= |m| }

  type Record = m: seq<Byte> | IsRecord(m) witness [0, 0]

  /** What `advertiser_data_build` copies of a record. */
  function Encoded(m: Record): (f: seq<Byte>)
    ensures |f| - 1 == m[0] == f[0]
  {
    m[..m[0] + 1]
  }

  function U16Bytes(n: int): seq<Byte> { [LowByte(n), LowByte(n / 256)] }

  /** `advertiser_data_set_name`; the length goes through a uint8. */
  function NameRecord(name: seq<Byte>): Record {
    var full := |name| % 256;
    var n := if full > AD_NAME_LEN then AD_NAME_LEN else full;
    [n + 1, if full > AD_NAME_LEN then AD_NAME_SHORT else AD_NAME_COMPLETE] + name[..n] + Zeros(full + 1 - n)
  }

  function Zeros(n: nat): (z: seq<Byte>)
    ensures |z| == n
  {
    seq(n, _ => 0)
  }

  /** `advertiser_data_set_flags`. */
  function FlagsRecord(flags: Byte): Record { [2, AD_FLAGS, flags] }

  /** `advertiser_data_set_appearance`. */
  function AppearanceRecord(v: nat): Record { [3, AD_GAP_APPEARANCE] + U16Bytes(v) }

  /** `advertiser_data_add_data`: the length byte does not count the type byte. */
  function DataRecord(ty: Byte, data: seq<Byte>): Record
    requires |data| < 256
  {
    [|data|, ty] + data
  }

  /** `advertiser_data_add_manufacture_data`; the length byte is a uint8. */
  function ManufacturerRecord(id: nat, data: seq<Byte>): Record
    requires |data| < 256
  {
    [(|data| + 3) % 256, AD_MANUFACTURER_DATA] + U16Bytes(id) + data
  }

  /** A `bt_uuid_t`.  The builders read the 32-bit one as the 16 bytes of the union: the value and the
      `rest` behind it. */
  datatype UuidArg =
    | Short(v: nat)
    | Medium(value: Uuid.Word32, rest: seq<Byte>)
    | Wide(bytes: seq<Byte>)
    | UnknownType

  predicate IsUuid(u: UuidArg) { (u.Medium? ==> |u.rest| == 12) && (u.Wide? ==> |u.bytes| == 16) }

  function U32Bytes(n: int): seq<Byte> {
    [LowByte(n), LowByte(n / 256), LowByte(n / 0x1_0000), LowByte(n / 0x100_0000)]
  }

  /** What is copied as a 128-bit UUID; the 32-bit case falls through to it. */
  function Copied(u: UuidArg): (b: seq<Byte>)
    requires IsUuid(u) && (u.Medium? || u.Wide?)
    ensures |b| == 16
  {
    if u.Medium? then U32Bytes(u.value) + u.rest else u.bytes
  }

  /** `advertiser_data_add_service_uuid`. */
  function ServiceUuidRecord(u: UuidArg): Record
    requires IsUuid(u) && !u.UnknownType?
  {
    if u.Short? then [3, AD_UUID16_ALL] + U16Bytes(u.v) else [17, AD_UUID128_ALL] + Copied(u)
  }

  /** `advertiser_data_add_service_data`: the length byte does not count the data. */
  function ServiceDataRecord(u: UuidArg, data: seq<Byte>): Record
    requires IsUuid(u) && !u.UnknownType?
  {
    if u.Short? then [3, AD_SERVICE_DATA16] + U16Bytes(u.v) + data else [17, AD_SERVICE_DATA128] + Copied(u) + data
  }

  // ----- Building -----

  /** The frames of all records, one after the other. */
  function Build(rs: seq<Record>): seq<Byte> {
    if rs == [] then [] else Encoded(rs[0]) + Build(rs[1..])
  }

  function Frames(rs: seq<Record>): (fs: seq<seq<Byte>>)
    ensures |fs| == |rs| && forall i :: 0 <= i < |rs| ==> fs[i] == Encoded(rs[i])
  {
    if rs == [] then []
    else
      var rest := Frames(rs[1..]);
      assert forall i :: 0 < i < |rs| ==> rest[i - 1] == Encoded(rs[1..][i - 1]) && rs[1..][i - 1] == rs[i];
      [Encoded(rs[0])] + rest
  }

  lemma {:induction false} BuildAppend(rs: seq<Record>, m: Record)
    ensures Build(rs + [m]) == Build(rs) + Encoded(m)
  {
    if rs == [] {
      assert [m][1..] == [];
    } else {
      BuildAppend(rs[1..], m);
      assert (rs + [m])[1..] == rs[1..] + [m];
    }
  }

  lemma {:induction false} BuildBound(rs: seq<Record>)
    ensures |Build(rs)| <= 256 * |rs|
  {
    if rs == [] {
    } else {
      BuildBound(rs[1..]);
    }
  }

  // ----- Walking -----

  /** The loop of `advertiser_data_dump` never lets the 16-bit offset wrap. */
  ghost predicate NoWrap(data: seq<Byte>, len: nat, offset: nat)
    requires len <= |data| && len < U16
    decreases len - offset
  {
    offset < len ==> offset + data[offset] + 1 < U16 && NoWrap(data, len, offset + data[offset] + 1)
  }

  /** The frames it visits; a frame is cut where the data ends. */
  function Walk(data: seq<Byte>, len: nat, offset: nat): seq<seq<Byte>>
    requires len <= |data|
    decreases len - offset
  {
    if offset >= len then []
    else
      var next := offset + data[offset] + 1;
      [data[offset..if next <= |data| then next else |data|]] + Walk(data, len, next)
  }

  /** Where the loop stops. */
  function WalkEnd(data: seq<Byte>, len: nat, offset: nat): nat
    requires len <= |data|
    decreases len - offset
  {
    if offset >= len then offset else WalkEnd(data, len, offset + data[offset] + 1)
  }

  function Joined(fs: seq<seq<Byte>>): seq<Byte> {
    if fs == [] then [] else fs[0] + Joined(fs[1..])
  }

  /** On any data the visited frames, put together, are the data from the start to where the walk
      stopped: nothing is skipped and nothing is visited twice. */
  lemma {:induction false} WalkCovers(data: seq<Byte>, len: nat, offset: nat)
    requires offset <= len <= |data|
    ensures WalkEnd(data, len, offset) >= len
    ensures var end := WalkEnd(data, len, offset);
            Joined(Walk(data, len, offset)) == data[offset..if end <= |data| then end else |data|]
    decreases len - offset
  {
    if offset < len {
      var next := offset + data[offset] + 1;
      var frame := data[offset..if next <= |data| then next else |data|];
      var rest := Walk(data, len, next);
      assert ([frame] + rest)[1..] == rest;
      if next <= len {
        WalkCovers(data, len, next);
      } else {
        assert rest == [];
      }
    }
  }

  lemma {:induction false} FrameAt(done: seq<Byte>, f: seq<Byte>, rest: seq<Byte>)
    requires f != []
    ensures (done + f + rest)[|done|] == f[0] && (done + f + rest)[|done|..|done| + |f|] == f
  {
  }

  lemma {:induction false} WalkBuilt(done: seq<Byte>, rs: seq<Record>)
    requires |done + Build(rs)| < U16
    ensures var data := done + Build(rs);
            && NoWrap(data, |data|, |done|)
            && Walk(data, |data|, |done|) == Frames(rs)
            && WalkEnd(data, |data|, |done|) == |data|
    decreases |rs|
  {
    if rs == [] {
    } else {
      var f := Encoded(rs[0]);
      var data := done + Build(rs);
      assert data == done + f + Build(rs[1..]);
      WalkBuilt(done + f, rs[1..]);
      FrameAt(done, f, Build(rs[1..]));
      assert |done| + data[|done|] + 1 == |done + f|;
    }
  }

  /** Walking what was built visits exactly the encoded records, in order, and stops exactly at the
      end, whenever the length fits the uint16; a list of up to 255 records always does. */
  lemma {:induction false} BuildThenWalk(rs: seq<Record>)
    ensures |rs| <= 255 ==> |Build(rs)| < U16
    ensures |Build(rs)| < U16 ==>
              && NoWrap(Build(rs), |Build(rs)|, 0)
              && Walk(Build(rs), |Build(rs)|, 0) == Frames(rs)
              && WalkEnd(Build(rs), |Build(rs)|, 0) == |Build(rs)|
  {
    BuildBound(rs);
    if |Build(rs)| < U16 {
      assert [] + Build(rs) == Build(rs);
      WalkBuilt([], rs);
    }
  }

  lemma {:induction false} ShortNeverWraps(data: seq<Byte>, len: nat, offset: nat)
    requires len <= |data| && len <= 65280
    ensures NoWrap(data, len, offset)
    decreases len - offset
  {
    if offset < len {
      ShortNeverWraps(data, len, offset + data[offset] + 1);
    }
  }

  /** The offset after one more turn of the loop, in 16 bits. */
  function NextOffset(data: seq<Byte>, len: nat, o: nat): nat
    requires len <= |data|
  {
    if o < len then (o + data[o] + 1) % U16 else o
  }

  /** The frame at an offset, cut where the data ends. */
  function FrameFrom(data: seq<Byte>, offset: nat): seq<Byte>
    requires offset < |data|
  {
    var next := offset + data[offset] + 1;
    data[offset..if next <= |data| then next else |data|]
  }

  /** The frames visited after one more turn. */
  function OneVisit(data: seq<Byte>, len: nat, seen: seq<seq<Byte>>, o: nat): seq<seq<Byte>>
    requires len <= |data|
  {
    if o < len then seen + [FrameFrom(data, o)] else seen
  }

  /** The offset after `k` turns. */
  function Turns(data: seq<Byte>, len: nat, k: nat): nat
    requires len <= |data|
  {
    if k == 0 then 0 else NextOffset(data, len, Turns(data, len, k - 1))
  }

  /** The frames visited in `k` turns. */
  function Visits(data: seq<Byte>, len: nat, k: nat): seq<seq<Byte>>
    requires len <= |data|
  {
    if k == 0 then [] else OneVisit(data, len, Visits(data, len, k - 1), Turns(data, len, k - 1))
  }

  /** The frames `seen` and the offset belong to the walk from the start. */
  ghost predicate OnWalk(data: seq<Byte>, len: nat, seen: seq<seq<Byte>>, o: nat) {
    && len <= |data| && len < U16 && NoWrap(data, len, o)
    && seen + Walk(data, len, o) == Walk(data, len, 0) && WalkEnd(data, len, o) == WalkEnd(data, len, 0)
  }

  lemma {:induction false} WalkTurn(data: seq<Byte>, len: nat, seen: seq<seq<Byte>>, o: nat)
    requires OnWalk(data, len, seen, o)
    ensures OnWalk(data, len, OneVisit(data, len, seen, o), NextOffset(data, len, o))
    ensures o < len ==> NextOffset(data, len, o) > o
  {
    if o < len {
      var next := o + data[o] + 1;
      assert next % U16 == next;
      var rest := Walk(data, len, next);
      assert Walk(data, len, o) == [FrameFrom(data, o)] + rest;
      assert seen + ([FrameFrom(data, o)] + rest) == seen + [FrameFrom(data, o)] + rest;
    }
  }

  /** As long as the offset does not wrap, the turns are those of the walk. */
  lemma {:induction false} TurnsWalk(data: seq<Byte>, len: nat, k: nat)
    requires len <= |data| && len < U16 && NoWrap(data, len, 0)
    ensures OnWalk(data, len, Visits(data, len, k), Turns(data, len, k))
    ensures Turns(data, len, k) >= len || Turns(data, len, k) >= k
  {
    if k == 0 {
      assert [] + Walk(data, len, 0) == Walk(data, len, 0);
    } else {
      TurnsWalk(data, len, k - 1);
      WalkTurn(data, len, Visits(data, len, k - 1), Turns(data, len, k - 1));
    }
  }

  /** On data of at most 65280 bytes, and on all data built from records, the loop has ended after at most
      `len` turns, having visited the frames of the walk; on built data these are the records. */
  lemma {:induction false} DumpEnds(data: seq<Byte>, len: nat, rs: seq<Record>)
    requires len <= |data| && len < U16 && (len <= 65280 || (data == Build(rs) && len == |data|))
    ensures Visits(data, len, len) == Walk(data, len, 0)
    ensures Turns(data, len, len) == WalkEnd(data, len, 0) >= len
    ensures data == Build(rs) && len == |data| ==> Visits(data, len, len) == Frames(rs) && Turns(data, len, len) == len
  {
    if len <= 65280 {
      ShortNeverWraps(data, len, 0);
    }
    BuildThenWalk(rs);
    TurnsWalk(data, len, len);
    assert Visits(data, len, len) + [] == Visits(data, len, len);
  }

  ghost predicate WalkEnds(data: seq<Byte>) { exists k: nat :: Turns(data, |data|, k) >= |data| }

  /** The walk ends on all data of a length if and only if that length is at most 65280; above, a
      buffer of 0xff bytes keeps it going for ever. */
  lemma {:induction false} WalkEndsIff(len: nat)
    requires len < U16
    ensures (forall data: seq<Byte> :: |data| == len ==> WalkEnds(data)) <==> len <= 65280
  {
    if len <= 65280 {
      forall data: seq<Byte> | |data| == len ensures WalkEnds(data) {
        ShortWalkEnds(data, 0);
      }
    } else {
      var data: seq<Byte> := seq(len, _ => 255);
      forall k: nat ensures Turns(data, |data|, k) < len {
        AllOnesCycle(data, k);
      }
      assert |data| == len && !WalkEnds(data);
    }
  }

  lemma {:induction false} ShortWalkEnds(data: seq<Byte>, k: nat)
    requires |data| <= 65280
    ensures WalkEnds(data)
    decreases |data| - Turns(data, |data|, k)
  {
    if Turns(data, |data|, k) < |data| {
      assert Turns(data, |data|, k + 1) > Turns(data, |data|, k);
      ShortWalkEnds(data, k + 1);
    }
  }

  lemma {:induction false} AllOnesCycle(data: seq<Byte>, k: nat)
    requires 65280 < |data| < U16 && forall i :: 0 <= i < |data| ==> data[i] == 255
    ensures Turns(data, |data|, k) % 256 == 0 && Turns(data, |data|, k) <= 65280
  {
    if k == 0 {
    } else {
      AllOnesCycle(data, k - 1);
    }
  }

  // ----- What survives in a frame -----

  /** The record a frame describes: its type and its payload. */
  predicate Carries(f: seq<Byte>, ty: Byte, payload: seq<Byte>) { f == [|payload| + 1, ty] + payload }

  /** The 16-bit number at a place of a frame, least significant byte first. */
  function At16(f: seq<Byte>, i: nat): int
    requires i + 1 < |f|
  {
    f[i] as int + 256 * f[i + 1] as int
  }

  lemma {:induction false} TwoBytes(n: int)
    ensures At16(U16Bytes(n), 0) == n % U16
  {
    assert n == 256 * (n / 256) + n % 256;
    assert n / 256 == 256 * ((n / 256) / 256) + (n / 256) % 256;
    assert n == U16 * ((n / 256) / 256) + (256 * ((n / 256) % 256) + n % 256);
    WordRemainder((n / 256) / 256, 256 * ((n / 256) % 256) + n % 256);
  }

  lemma {:induction false} WordRemainder(q: int, r: int)
    requires 0 <= r < U16
    ensures (U16 * q + r) % U16 == r
  {
  }

  /** In the assigned numbers: a frame of three bytes for flags, and frames of four for an appearance and a
      16-bit UUID, each with its value least significant byte first; company ids likewise. */
  lemma {:induction false} ValuesInFrames(flags: Byte, v: nat, data: seq<Byte>)
    requires |data| <= 252
    ensures Encoded(FlagsRecord(flags)) == [2, 0x01, flags]
    ensures var f := Encoded(AppearanceRecord(v)); |f| == 4 && f[..2] == [3, 0x19] && At16(f, 2) == v % U16
    ensures var f := Encoded(ServiceUuidRecord(Short(v))); |f| == 4 && f[..2] == [3, 0x03] && At16(f, 2) == v % U16
    ensures var f := Encoded(ServiceDataRecord(Short(v), data));
            |f| == 4 && f[..2] == [3, 0x16] && At16(f, 2) == v % U16
    ensures var f := Encoded(ManufacturerRecord(v, data));
            |f| == |data| + 4 && f[..2] == [|data| + 3, 0xff] && At16(f, 2) == v % U16 && f[4..] == data
  {
    TwoBytes(v);
    var m := ManufacturerRecord(v, data);
    assert m == [|data| + 3, 0xff] + (U16Bytes(v) + data);
    assert Encoded(m) == m;
  }

  /** Flags, appearance and service UUIDs of 16 and 128 bits arrive whole. */
  lemma {:induction false} SmallRecordsArrive(flags: Byte, v: nat, bytes: seq<Byte>)
    requires |bytes| == 16
    ensures Carries(Encoded(FlagsRecord(flags)), AD_FLAGS, [flags])
    ensures Carries(Encoded(AppearanceRecord(v)), AD_GAP_APPEARANCE, U16Bytes(v))
    ensures Carries(Encoded(ServiceUuidRecord(Short(v))), AD_UUID16_ALL, U16Bytes(v))
    ensures Carries(Encoded(ServiceUuidRecord(Wide(bytes))), AD_UUID128_ALL, bytes)
  {
  }

  /** Four bytes are those of the number 0x5F9B34FB exactly for that number. */
  lemma {:induction false} BaseStart(v: Uuid.Word32)
    ensures U32Bytes(v) == [0xFB, 0x34, 0x9B, 0x5F] <==> v == 0x5F9B34FB
  {
    Uuid.BytesOfWord(v);
  }

  /** A 32-bit service UUID arrives marked as a 128-bit one, and is another UUID: the bytes sent are the
      widened UUID only if the value and the bytes behind it in the union happen to spell it, and never
      when those are zero, as `bt_uuid32_create` leaves them. */
  lemma {:induction false} Uuid32ArrivesIff(v: Uuid.Word32, rest: seq<Byte>)
    requires |rest| == 12
    ensures Carries(Encoded(ServiceUuidRecord(Medium(v, rest))), AD_UUID128_ALL, Copied(Medium(v, rest)))
    ensures Carries(Encoded(ServiceUuidRecord(Medium(v, rest))), AD_UUID128_ALL, Uuid.Widen(Uuid.Uuid32(v))) <==>
            v == 0x5F9B34FB && rest == Uuid.BASE[4..12] + U32Bytes(v)
    ensures rest == Zeros(12) ==>
              !Carries(Encoded(ServiceUuidRecord(Medium(v, rest))), AD_UUID128_ALL, Uuid.Widen(Uuid.Uuid32(v)))
  {
    var w, c := Uuid.Widen(Uuid.Uuid32(v)), Copied(Medium(v, rest));
    CopiedIsWideIff(v, rest);
    assert Encoded(ServiceUuidRecord(Medium(v, rest))) == [17, AD_UUID128_ALL] + c;
    assert ([17, AD_UUID128_ALL] + c)[2..] == c && ([17, AD_UUID128_ALL] + w)[2..] == w;
    if rest == Zeros(12) {
      assert rest[0] == 0 && Uuid.BASE[4..12][0] == 0x80;
    }
  }

  lemma {:induction false} CopiedIsWideIff(v: Uuid.Word32, rest: seq<Byte>)
    requires |rest| == 12
    ensures Copied(Medium(v, rest)) == Uuid.Widen(Uuid.Uuid32(v)) <==>
            v == 0x5F9B34FB && rest == Uuid.BASE[4..12] + U32Bytes(v)
  {
    var w, c := Uuid.Widen(Uuid.Uuid32(v)), Copied(Medium(v, rest));
    BaseStart(v);
    assert w == Uuid.BASE[..12] + U32Bytes(v);
    assert w[..4] == [0xFB, 0x34, 0x9B, 0x5F] && w[4..] == Uuid.BASE[4..12] + U32Bytes(v);
    assert c[..4] == U32Bytes(v) && c[4..] == rest;
    assert w == w[..4] + w[4..] && c == c[..4] + c[4..];
  }

  /** A name arrives whole and marked complete exactly when it has at most 29 bytes; a longer one arrives
      as its first 29 bytes marked short, and from 256 bytes on a cut name can be marked complete. */
  lemma {:induction false} NameArrivesIff(name: seq<Byte>)
    ensures Carries(Encoded(NameRecord(name)), AD_NAME_COMPLETE, name) <==> |name| <= AD_NAME_LEN
    ensures AD_NAME_LEN < |name| < 256 ==> Carries(Encoded(NameRecord(name)), AD_NAME_SHORT, name[..AD_NAME_LEN])
    ensures NameRecord(name)[1] == AD_NAME_COMPLETE && |name| > AD_NAME_LEN <==>
            |name| >= 256 && |name| % 256 <= AD_NAME_LEN
  {
    var f := Encoded(NameRecord(name));
    if |name| <= AD_NAME_LEN {
      assert f == [|name| + 1, AD_NAME_COMPLETE] + name;
    } else {
      assert |name| < 256 ==> f == [AD_NAME_LEN + 1, AD_NAME_SHORT] + name[..AD_NAME_LEN];
      assert |f| <= AD_NAME_LEN + 2;
    }
  }

  /** Manufacturer data arrives whole exactly when it has at most 252 bytes: beyond, the length byte
      wraps. */
  lemma {:induction false} ManufacturerArrivesIff(id: nat, data: seq<Byte>)
    requires |data| < 256
    ensures Carries(Encoded(ManufacturerRecord(id, data)), AD_MANUFACTURER_DATA, U16Bytes(id) + data) <==> |data| <= 252
  {
    if |data| <= 252 {
      assert ManufacturerRecord(id, data) == [|data| + 3, AD_MANUFACTURER_DATA] + (U16Bytes(id) + data);
    }
  }

  /** Generic data never arrives whole: the frame drops the last byte, and of an empty payload even the
      type. */
  lemma {:induction false} DataLosesLastByte(ty: Byte, data: seq<Byte>)
    requires |data| < 256
    ensures !Carries(Encoded(DataRecord(ty, data)), ty, data)
    ensures data != [] ==> Carries(Encoded(DataRecord(ty, data)), ty, data[..|data| - 1])
  {
    if data != [] {
      assert Encoded(DataRecord(ty, data)) == [|data|, ty] + data[..|data| - 1];
    }
  }

  /** Service data never arrives: the frame ends after what was copied of the UUID. */
  lemma {:induction false} ServiceDataLost(u: UuidArg, data: seq<Byte>)
    requires IsUuid(u) && !u.UnknownType?
    ensures if u.Short? then Carries(Encoded(ServiceDataRecord(u, data)), AD_SERVICE_DATA16, U16Bytes(u.v))
            else Carries(Encoded(ServiceDataRecord(u, data)), AD_SERVICE_DATA128, Copied(u))
  {
  }

  // ----- The builder and the walker as they run -----

  class Advertiser {
    var data: seq<Record>
    var buffer: array<Byte>

    constructor ()
      ensures data == [] && fresh(buffer) && buffer.Length == 0
    {
      data := [];
      buffer := new Byte[0];
    }

    method AddTail(m: Record)
      modifies this`data
      ensures data == old(data) + [m]
    {
      data := data + [m];
    }

    /** `advertiser_data_add_service_uuid` and `advertiser_data_add_service_data`; a UUID of unknown type
        is refused. */
    method AddServiceUuid(u: UuidArg) returns (ok: bool)
      requires IsUuid(u)
      modifies this`data
      ensures ok <==> !u.UnknownType?
      ensures data == if ok then old(data) + [ServiceUuidRecord(u)] else old(data)
    {
      ok := !u.UnknownType?;
      if ok {
        AddTail(ServiceUuidRecord(u));
      }
    }

    method AddServiceData(u: UuidArg, bytes: seq<Byte>) returns (ok: bool)
      requires IsUuid(u) && |bytes| < 256
      modifies this`data
      ensures ok <==> !u.UnknownType?
      ensures data == if ok then old(data) + [ServiceDataRecord(u, bytes)] else old(data)
    {
      ok := !u.UnknownType?;
      if ok {
        AddTail(ServiceDataRecord(u, bytes));
      }
    }

    /** The length pass: `advertiser_data_calc_len` over the list, in 16 bits. */
    method CalcLen() returns (total: nat)
      ensures total == |Build(data)| % U16
    {
      total := 0;
      assert data[..0] == [];
      for i := 0 to |data|
        invariant total == |Build(data[..i])| % U16
      {
        BuildAppend(data[..i], data[i]);
        assert data[..i + 1] == data[..i] + [data[i]];
        total := (total + data[i][0] + 1) % U16;
      }
      assert data[..|data|] == data;
    }

    /** `advertiser_data_build`; without records it builds nothing, and `overrun` marks a copy past the
        end of the allocation. */
    method BuildBuffer() returns (built: bool, len: nat, overrun: bool)
      modifies this`buffer
      ensures built <==> data != []
      ensures !built ==> buffer == old(buffer)
      ensures overrun <==> |Build(data)| >= U16
      ensures built && !overrun ==> fresh(buffer) && len == |Build(data)| && buffer[..] == Build(data)
    {
      built, len, overrun := |data| != 0, 0, false;
      if !built {
        return;
      }
      len := CalcLen();
      buffer := new Byte[len](_ => 0);
      var p := 0;
      assert data[..0] == [];
      for i := 0 to |data|
        invariant p == |Build(data[..i])| <= len && buffer.Length == len && fresh(buffer)
        invariant buffer[..p] == Build(data[..i])
      {
        var m := data[i];
        BuildAppend(data[..i], m);
        assert data[..i + 1] == data[..i] + [m];
        if p + m[0] + 1 > len {
          overrun := true;
          BuildGrows(data, i + 1);
          return;
        }
        p := Copy(buffer, p, m, data[..i]);
      }
      assert data[..|data|] == data;
    }
  }

  /** `memcpy(p, adata, adata->len + 1)` and the advance of `p`. */
  method Copy(buffer: array<Byte>, p: nat, m: Record, ghost before: seq<Record>) returns (q: nat)
    requires p + m[0] + 1 <= buffer.Length && p == |Build(before)| && buffer[..p] == Build(before)
    modifies buffer
    ensures q == p + m[0] + 1 && buffer[..q] == Build(before + [m])
  {
    BuildAppend(before, m);
    q := p + m[0] + 1;
    forall j | 0 <= j <= m[0] {
      buffer[p + j] := m[j];
    }
    assert buffer[..p] == Build(before);
    assert buffer[p..q] == Encoded(m);
    assert buffer[..q] == buffer[..p] + buffer[p..q];
  }

  lemma {:induction false} BuildGrows(rs: seq<Record>, i: nat)
    requires i <= |rs|
    ensures |Build(rs[..i])| <= |Build(rs)|
    decreases |rs| - i
  {
    if i == |rs| {
      assert rs[..i] == rs;
    } else {
      BuildAppend(rs[..i], rs[i]);
      assert rs[..i + 1] == rs[..i] + [rs[i]];
      BuildGrows(rs, i + 1);
    }
  }

  /** One turn of the loop of `advertiser_data_dump`; nothing once the offset has passed the length. */
  method DumpTurn(data: seq<Byte>, len: nat, seen: seq<seq<Byte>>, o: nat)
    returns (visited: seq<seq<Byte>>, offset: nat)
    requires len <= |data|
    ensures visited == OneVisit(data, len, seen, o) && offset == NextOffset(data, len, o)
  {
    visited, offset := seen, o;
    if o < len {
      var next := o + data[o] + 1;
      visited := seen + [data[o..if next <= |data| then next else |data|]];
      offset := next % U16;
    }
  }

  /** `advertiser_data_dump`, for as many turns as one likes: on some data it does not end. */
  method Dump(data: seq<Byte>, len: nat, turns: nat) returns (visited: seq<seq<Byte>>, offset: nat)
    requires len <= |data|
    ensures visited == Visits(data, len, turns) && offset == Turns(data, len, turns)
  {
    visited, offset := [], 0;
    for k := 0 to turns
      invariant visited == Visits(data, len, k) && offset == Turns(data, len, k)
    {
      visited, offset := DumpTurn(data, len, visited, offset);
    }
  }
}
