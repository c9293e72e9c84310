/** Little-endian fields inside byte strings. */
module Bytes {
  import opened Coff

  function Pow256(n: nat): (p: int)
    ensures p > 0
  {
    if n == 0 then 1 else 256 * Pow256(n - 1)
  }

  /** Byte `i` of `v`, counted from the least significant one. */
  function Digit(v: int, i: nat): byte
    decreases i
  {
    if i == 0 then (v % 256) as byte else Digit(v / 256, i - 1)
  }

  /** The `n` low-order bytes of `v`, least significant first; `v` may be negative (two's complement). */
  function Encode(v: int, n: nat): (s: seq<byte>)
    ensures |s| == n
  {
    seq(n, i requires 0 <= i => Digit(v, i))
  }

  lemma EncodeStep(v: int, n: nat)
    requires n > 0
    ensures Encode(v, n) == [(v % 256) as byte] + Encode(v / 256, n - 1)
  {
  }

  function Decode(s: seq<byte>): (v: int)
    ensures 0 <= v < Pow256(|s|)
  {
    if s == [] then 0 else s[0] as int + 256 * Decode(s[1..])
  }

  lemma {:induction false} DecodeEncode(v: int, n: nat)
    ensures Decode(Encode(v, n)) == v % Pow256(n)
    decreases n
  {
    if n > 0 {
      var p := Pow256(n - 1);
      DecodeEncode(v / 256, n - 1);
      EncodeStep(v, n);
      assert Encode(v, n)[1..] == Encode(v / 256, n - 1);
      ModSplit(v, p);
    }
  }

  lemma ModSplit(v: int, p: int)
    requires p > 0
    ensures v % (256 * p) == v % 256 + 256 * (v / 256 % p)
  {
    var q, r := v / 256 / p, v / 256 % p;
    assert v / 256 == q * p + r;
    assert v == q * (256 * p) + (v % 256 + 256 * r);
    ModUnique(v, 256 * p, q, v % 256 + 256 * r);
  }

  lemma ModUnique(v: int, m: int, q: int, r: int)
    requires m > 0 && 0 <= r < m && v == q * m + r
    ensures v % m == r
  {
    var k := v / m - q;
    assert v == (v / m) * m + v % m;
    assert k * m == r - v % m;
    MultipleIsFar(k, m);
  }

  lemma MultipleIsFar(k: int, m: int)
    requires m > 0
    ensures (k > 0 ==> k * m >= m) && (k < 0 ==> k * m <= -m)
  {
  }

  lemma {:induction false} EncodeDecode(s: seq<byte>)
    ensures Encode(Decode(s), |s|) == s
  {
    if s != [] {
      EncodeDecode(s[1..]);
      EncodeStep(Decode(s), |s|);
      assert Decode(s) / 256 == Decode(s[1..]) && Decode(s) % 256 == s[0] as int;
      assert s == [s[0]] + s[1..];
    }
  }

  /** Two values have the same `n`-byte encoding exactly when they agree modulo 256^n. */
  lemma EncodeEqual(v: int, w: int, n: nat)
    ensures Encode(v, n) == Encode(w, n) <==> v % Pow256(n) == w % Pow256(n)
  {
    DecodeEncode(v, n);
    DecodeEncode(w, n);
    EncodeDecode(Encode(v, n));
    EncodeDecode(Encode(w, n));
    if v % Pow256(n) == w % Pow256(n) {
      assert Encode(v, n) == Encode(Decode(Encode(v, n)), n) == Encode(w, n);
    }
  }

  lemma Widths()
    ensures Pow256(1) == 256 && Pow256(2) == 0x1_0000 && Pow256(4) == 0x1_0000_0000
    ensures Pow256(8) == 0x1_0000_0000_0000_0000
  {
    assert Pow256(2) == 256 * Pow256(1);
    assert Pow256(4) == 256 * (256 * Pow256(2));
    assert Pow256(8) == 256 * (256 * (256 * (256 * Pow256(4))));
  }

  lemma Word16(v: int)
    requires 0 <= v < 0x1_0000
    ensures Decode(Encode(v, 2)) == v
  {
    DecodeEncode(v, 2);
    Widths();
  }

  lemma Word32(v: int)
    requires 0 <= v < 0x1_0000_0000
    ensures Decode(Encode(v, 4)) == v
  {
    DecodeEncode(v, 4);
    Widths();
  }

  lemma Word64(v: int)
    requires 0 <= v < 0x1_0000_0000_0000_0000
    ensures Decode(Encode(v, 8)) == v
  {
    DecodeEncode(v, 8);
    Widths();
  }

  // ---------- reading and writing in place ----------

  function Get(s: seq<byte>, offset: int, n: nat): seq<byte>
    requires 0 <= offset && offset + n <= |s|
  {
    s[offset..offset + n]
  }

  function Put(s: seq<byte>, offset: int, bytes: seq<byte>): (r: seq<byte>)
    requires 0 <= offset && offset + |bytes| <= |s|
    ensures |r| == |s|
  {
    s[..offset] + bytes + s[offset + |bytes|..]
  }

  lemma PutAt(s: seq<byte>, offset: int, bytes: seq<byte>, i: int)
    requires 0 <= offset && offset + |bytes| <= |s| && 0 <= i < |s|
    ensures Put(s, offset, bytes)[i] == if offset <= i < offset + |bytes| then bytes[i - offset] else s[i]
  {
  }

  lemma GetPut(s: seq<byte>, offset: int, bytes: seq<byte>)
    requires 0 <= offset && offset + |bytes| <= |s|
    ensures Get(Put(s, offset, bytes), offset, |bytes|) == bytes
  {
  }

  lemma GetPutOther(s: seq<byte>, offset: int, bytes: seq<byte>, at: int, n: nat)
    requires 0 <= offset && offset + |bytes| <= |s| && 0 <= at && at + n <= |s|
    requires at + n <= offset || offset + |bytes| <= at
    ensures Get(Put(s, offset, bytes), at, n) == Get(s, at, n)
  {
    forall i | at <= i < at + n ensures Put(s, offset, bytes)[i] == s[i] { PutAt(s, offset, bytes, i); }
  }

  function Zeros(n: nat): (s: seq<byte>)
    ensures |s| == n
  {
    seq(n, i requires 0 <= i => 0)
  }

  /** The signed value of an unsigned `bits`-wide word. */
  function Signed(v: int, modulus: int): int
    requires modulus > 0
  {
    if v % modulus < modulus / 2 then v % modulus else v % modulus - modulus
  }

  /** A signed 32-bit value survives being stored. */
  lemma SignedWord(v: int)
    requires -0x8000_0000 <= v <= 0x7fff_ffff
    ensures Signed(Decode(Encode(v, 4)), 0x1_0000_0000) == v
  {
    DecodeEncode(v, 4);
    Widths();
    SignedOf(v);
  }

  lemma SignedOf(v: int)
    requires -0x8000_0000 <= v <= 0x7fff_ffff
    ensures Signed(v % 0x1_0000_0000, 0x1_0000_0000) == v
  {
    if v < 0 { ModUnique(v, 0x1_0000_0000, -1, v + 0x1_0000_0000); }
  }
}
