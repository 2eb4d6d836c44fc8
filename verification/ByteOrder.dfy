/**
 The inline integer cursors of src/protocol.h. Whatever the byte order of the
 host, the stores put the most significant byte first.
 */
module ByteOrder {
  import opened Base

  function Pow256(k: nat): (p: nat)
    ensures p > 0
  {
    if k == 0 then 1 else 256 * Pow256(k - 1)
  }

  /** The k bytes of v, most significant first; higher bits of v are cut off as by a C cast. */
  function BigEndian(k: nat, v: nat): (s: seq<Byte>)
    ensures |s| == k
  {
    if k == 0 then [] else BigEndian(k - 1, v / 256) + [v % 256]
  }

  function FromBigEndian(s: seq<Byte>): (v: nat) {
    if s == [] then 0 else FromBigEndian(s[..|s| - 1]) * 256 + s[|s| - 1]
  }

  lemma {:induction false} IntRoundTrip(k: nat, v: nat)
    requires v < Pow256(k)
    ensures FromBigEndian(BigEndian(k, v)) == v
  {
    if k == 0 {
    } else {
      IntRoundTrip(k - 1, v / 256);
      assert BigEndian(k, v)[..k - 1] == BigEndian(k - 1, v / 256);
    }
  }

  /** Every byte string is the encoding of the number it decodes to. */
  lemma {:induction false} BytesRoundTrip(s: seq<Byte>)
    ensures FromBigEndian(s) < Pow256(|s|)
    ensures BigEndian(|s|, FromBigEndian(s)) == s
  {
    if s == [] {
    } else {
      var front := s[..|s| - 1];
      BytesRoundTrip(front);
      assert FromBigEndian(s) / 256 == FromBigEndian(front);
      assert s == front + [s[|s| - 1]];
    }
  }

  /** The two header bytes that carry a 16-bit length. */
  lemma WordBytes(v: nat)
    requires v < 0x10000
    ensures BigEndian(2, v) == [v / 256, v % 256]
  {
    assert BigEndian(1, v / 256) == BigEndian(0, v / 256 / 256) + [v / 256 % 256];
  }

  lemma LongwordBytes(v: nat)
    requires v < 0x1_0000_0000
    ensures BigEndian(4, v) == [v / 0x100_0000, v / 0x1_0000 % 256, v / 256 % 256, v % 256]
  {
    var a, b, c := v / 256, v / 256 / 256, v / 256 / 256 / 256;
    assert b == v / 0x1_0000 && c == v / 0x100_0000;
    assert BigEndian(1, c) == BigEndian(0, c / 256) + [c % 256];
    assert BigEndian(2, b) == BigEndian(1, c) + [b % 256];
    assert BigEndian(3, a) == BigEndian(2, b) + [a % 256];
  }

  method EncodeInt1(buffer: array<Byte>, cursor: nat, v: nat) returns (next: nat)
    requires cursor + 1 <= buffer.Length && v < 0x100
    modifies buffer
    ensures next == cursor + 1
    ensures buffer[..] == Splice(old(buffer[..]), cursor, BigEndian(1, v))
  {
    assert BigEndian(1, v) == BigEndian(0, v / 256) + [v % 256];
    buffer[cursor] := v;
    next := cursor + 1;
  }

  method EncodeInt2(buffer: array<Byte>, cursor: nat, v: nat) returns (next: nat)
    requires cursor + 2 <= buffer.Length && v < 0x10000
    modifies buffer
    ensures next == cursor + 2
    ensures buffer[..] == Splice(old(buffer[..]), cursor, BigEndian(2, v))
  {
    WordBytes(v);
    buffer[cursor + 1] := v % 256;
    buffer[cursor] := v / 256;
    next := cursor + 2;
  }

  method EncodeInt4(buffer: array<Byte>, cursor: nat, v: nat) returns (next: nat)
    requires cursor + 4 <= buffer.Length && v < 0x1_0000_0000
    modifies buffer
    ensures next == cursor + 4
    ensures buffer[..] == Splice(old(buffer[..]), cursor, BigEndian(4, v))
  {
    LongwordBytes(v);
    buffer[cursor + 3] := v % 256;
    buffer[cursor + 2] := v / 256 % 256;
    buffer[cursor + 1] := v / 0x1_0000 % 256;
    buffer[cursor] := v / 0x100_0000;
    next := cursor + 4;
  }

  method DecodeInt1(buffer: array<Byte>, cursor: nat) returns (v: nat, next: nat)
    requires cursor + 1 <= buffer.Length
    ensures next == cursor + 1
    ensures v < 0x100 && BigEndian(1, v) == buffer[cursor..cursor + 1]
  {
    v := buffer[cursor];
    next := cursor + 1;
    assert BigEndian(1, v) == BigEndian(0, v / 256) + [v % 256];
  }

  method DecodeInt2(buffer: array<Byte>, cursor: nat) returns (v: nat, next: nat)
    requires cursor + 2 <= buffer.Length
    ensures next == cursor + 2
    ensures v < 0x10000 && BigEndian(2, v) == buffer[cursor..cursor + 2]
  {
    var hi: nat, lo: nat := buffer[cursor], buffer[cursor + 1];
    v := hi * 256 + lo;
    next := cursor + 2;
    WordBytes(v);
  }

  method DecodeInt4(buffer: array<Byte>, cursor: nat) returns (v: nat, next: nat)
    requires cursor + 4 <= buffer.Length
    ensures next == cursor + 4
    ensures v < 0x1_0000_0000 && BigEndian(4, v) == buffer[cursor..cursor + 4]
  {
    var b0: nat, b1: nat := buffer[cursor], buffer[cursor + 1];
    var b2: nat, b3: nat := buffer[cursor + 2], buffer[cursor + 3];
    v := ((b0 * 256 + b1) * 256 + b2) * 256 + b3;
    assert buffer[cursor..cursor + 4] == [b0, b1, b2, b3];
    FourBytes(b0, b1, b2, b3);
    next := cursor + 4;
  }

  lemma FourBytes(b0: Byte, b1: Byte, b2: Byte, b3: Byte)
    ensures BigEndian(4, ((b0 * 256 + b1) * 256 + b2) * 256 + b3) == [b0, b1, b2, b3]
  {
    var a: nat := b0;
    var b: nat := a * 256 + b1;
    var c: nat := b * 256 + b2;
    assert BigEndian(1, a) == BigEndian(0, a / 256) + [a % 256];
    assert BigEndian(2, b) == BigEndian(1, a) + [b1];
    assert BigEndian(3, c) == BigEndian(2, b) + [b2];
    assert BigEndian(4, c * 256 + b3) == BigEndian(3, c) + [b3];
  }
}
