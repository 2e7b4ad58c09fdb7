/** `bt_hash4` (framework/common/bt_hash.c): an unrolled loop entered through a switch. */
module Hash {
  import opened Bytes

  /** The plain left fold h := 33 * h + byte, in 32 bits. */
  function Fold(h: nat, s: seq<Byte>): nat
    decreases |s|
  {
    if s == [] then h else Fold((33 * h + s[0]) % U32, s[1..])
  }

  /** The macro HASH4: `(h << 5) + h + *key` in 32 bits. */
  function Hash4(h: nat, b: Byte): nat {
    (((h * 32) % U32 + h) % U32 + b) % U32
  }

  /** The shift-and-add form multiplies by 33. */
  lemma {:induction false} ShiftAddIs33(h: nat, b: Byte)
    ensures Hash4(h, b) == (33 * h + b) % U32
  {
    var x := h * 32;
    assert x == U32 * (x / U32) + x % U32;
    var y := x % U32 + h;
    assert y == U32 * (y / U32) + y % U32;
    var n := y % U32 + b;
    assert 33 * h + b == n + U32 * (x / U32 + y / U32);
    SameRemainder(n, x / U32 + y / U32);
  }

  lemma {:induction false} SameRemainder(n: int, k: nat)
    ensures (n + U32 * k) % U32 == n % U32
  {
    if k == 0 {
    } else {
      SameRemainder(n, k - 1);
      assert n + U32 * k == n + U32 * (k - 1) + U32;
    }
  }

  lemma {:induction false} FoldAppend(h: nat, s: seq<Byte>, b: Byte)
    ensures Fold(h, s + [b]) == (33 * Fold(h, s) + b) % U32
    decreases |s|
  {
    if s == [] {
      assert [b][1..] == [];
    } else {
      FoldAppend((33 * h + s[0]) % U32, s[1..], b);
      assert (s + [b])[1..] == s[1..] + [b];
    }
  }

  /** HASH4 applied to the next byte extends the fold by one. */
  lemma {:induction false} Advance(key: seq<Byte>, p: nat, h: nat)
    requires p < |key| && h == Fold(0, key[..p])
    ensures Hash4(h, key[p]) == Fold(0, key[..p + 1])
  {
    ShiftAddIs33(h, key[p]);
    FoldAppend(0, key[..p], key[p]);
    assert key[..p + 1] == key[..p] + [key[p]];
  }

  /** One labelled HASH4 of the loop body: `mark` counts the labels 0, 7, 6, ..., 1 down from 8; a
      jump to `entry` skips the ones above it. */
  method Case(key: seq<Byte>, entry: nat, mark: nat, p0: nat, h0: nat) returns (p: nat, h: nat)
    requires p0 <= |key| && h0 == Fold(0, key[..p0])
    requires entry == 0 || mark <= entry ==> p0 < |key|
    ensures p == (if entry == 0 || mark <= entry then p0 + 1 else p0) <= |key| && h == Fold(0, key[..p])
  {
    p, h := p0, h0;
    if entry == 0 || mark <= entry {
      Advance(key, p, h);
      h := Hash4(h, key[p]);
      p := p + 1;
    }
  }

  /** One pass through the body of the do-while entered at case label `entry`; 0 is the top. */
  method Pass(key: seq<Byte>, entry: nat, p0: nat, h0: nat) returns (p: nat, h: nat)
    requires entry < 8 && p0 + (if entry == 0 then 8 else entry) <= |key|
    requires h0 == Fold(0, key[..p0])
    ensures p == p0 + (if entry == 0 then 8 else entry) && h == Fold(0, key[..p])
  {
    p, h := p0, h0;
    p, h := Case(key, entry, 8, p, h);
    p, h := Case(key, entry, 7, p, h);
    p, h := Case(key, entry, 6, p, h);
    p, h := Case(key, entry, 5, p, h);
    p, h := Case(key, entry, 4, p, h);
    p, h := Case(key, entry, 3, p, h);
    p, h := Case(key, entry, 2, p, h);
    p, h := Case(key, entry, 1, p, h);
  }

  /** `bt_hash4` equals the plain fold for every byte string and reads exactly `|key|` bytes. */
  method BtHash4(key: seq<Byte>) returns (h: nat, read: nat)
    ensures h == Fold(0, key) && read == |key|
  {
    h, read := 0, 0;
    assert key[..0] == [];
    if |key| > 0 {
      var loop := (|key| + 7) / 8;
      var entry := |key| % 8;
      read, h := Pass(key, entry, 0, 0);
      loop := loop - 1;
      while loop > 0
        invariant 0 <= loop && read == |key| - 8 * loop
        invariant h == Fold(0, key[..read])
      {
        read, h := Pass(key, 0, read, h);
        loop := loop - 1;
      }
    }
    assert key[..|key|] == key;
  }

  function Power33(n: nat): nat { if n == 0 then 1 else 33 * Power33(n - 1) }

  /** The polynomial the hash stands for. */
  function Polynomial(s: seq<Byte>): nat {
    if s == [] then 0 else s[0] * Power33(|s| - 1) + Polynomial(s[1..])
  }

  /** The fold is the polynomial with coefficients `s` at 33, modulo 2^32. */
  lemma {:induction false} FoldIsPolynomial(h: nat, s: seq<Byte>)
    ensures s != [] ==> Fold(h, s) == (h * Power33(|s|) + Polynomial(s)) % U32
    decreases |s|
  {
    if s == [] {
    } else {
      var v := 33 * h + s[0];
      var p := Power33(|s| - 1);
      assert v * p == h * Power33(|s|) + s[0] * p;
      if |s| == 1 {
        assert s[1..] == [] && p == 1;
      } else {
        FoldIsPolynomial(v % U32, s[1..]);
        ReduceFactor(v, p, Polynomial(s[1..]));
      }
    }
  }

  /** A factor may be reduced before multiplying. */
  lemma {:induction false} ReduceFactor(v: nat, p: nat, c: nat)
    ensures ((v % U32) * p + c) % U32 == (v * p + c) % U32
  {
    var q := v / U32;
    assert v == U32 * q + v % U32;
    assert v * p + c == (v % U32) * p + c + U32 * (q * p);
    SameRemainder((v % U32) * p + c, q * p);
  }
}
