/** The padding of SHA-1 byte by byte, shown to spell the padding of section 5.1.1 of FIPS 180-3. */
module Sha1Padding {
  import opened Sha1Spec

  /** The low k octets of n, the most significant first. */
  function Octets(n: nat, k: nat): (r: seq<Byte>)
    ensures |r| == k
  {
    if k == 0 then [] else Octets(n / 256, k - 1) + [(n % 256) as bv8]
  }

  function ZeroBytes(k: nat): seq<Byte> {
    seq(k, i => 0)
  }

  /** What padding leaves to be hashed: the bytes of the message, the byte that ends it,
      zero bytes and the length in bits. */
  function Padded(bytes: seq<Byte>, padByte: Byte, bits: nat): seq<Byte> {
    bytes + [padByte] + ZeroBytes((55 - |bytes|) % 64) + Octets(bits, 8)
  }

  /** The bits of a number below 256. */
  function ValueBits(x: nat): seq<bool> {
    [x / 128 % 2 == 1, x / 64 % 2 == 1, x / 32 % 2 == 1, x / 16 % 2 == 1,
     x / 8 % 2 == 1, x / 4 % 2 == 1, x / 2 % 2 == 1, x % 2 == 1]
  }

  lemma OctetBits(x: nat)
    requires x < 256
    ensures ByteBits(x as bv8) == ValueBits(x)
  {
    var b := x as bv8;
    EightBits(b);
    assert b & 0x80 != 0 <==> x / 128 % 2 == 1;
    assert b & 0x40 != 0 <==> x / 64 % 2 == 1;
    assert b & 0x20 != 0 <==> x / 32 % 2 == 1;
    assert b & 0x10 != 0 <==> x / 16 % 2 == 1;
    assert b & 0x08 != 0 <==> x / 8 % 2 == 1;
    assert b & 0x04 != 0 <==> x / 4 % 2 == 1;
    assert b & 0x02 != 0 <==> x / 2 % 2 == 1;
    assert b & 0x01 != 0 <==> x % 2 == 1;
  }

  lemma BinaryNibble(n: nat, w: nat)
    ensures Binary(n, w + 4) == Binary(n / 16, w) + [n / 8 % 2 == 1, n / 4 % 2 == 1, n / 2 % 2 == 1, n % 2 == 1]
  {
    assert n / 2 / 2 == n / 4 && n / 4 / 2 == n / 8 && n / 8 / 2 == n / 16;
    assert Binary(n, w + 4) == Binary(n / 2, w + 3) + [n % 2 == 1];
    assert Binary(n / 2, w + 3) == Binary(n / 4, w + 2) + [n / 2 % 2 == 1];
    assert Binary(n / 4, w + 2) == Binary(n / 8, w + 1) + [n / 4 % 2 == 1];
    assert Binary(n / 8, w + 1) == Binary(n / 16, w) + [n / 8 % 2 == 1];
  }

  lemma NoMultipleWithin(d: int, k: int)
    requires d > 0 && -d < d * k < d
    ensures k == 0
  {}

  lemma DivUnique(n: int, d: int, q: int, r: int)
    requires d > 0 && n == d * q + r && 0 <= r < d
    ensures n / d == q && n % d == r
  {
    var k := n / d - q;
    assert n == d * (n / d) + n % d;
    assert d * k == r - n % d;
    NoMultipleWithin(d, k);
  }

  /** Multiples of d drop out of a remainder and come out of a quotient. */
  lemma DropMultiple(m: nat, y: nat, d: nat)
    requires d > 0
    ensures (d * m + y) / d == m + y / d && (d * m + y) % d == y % d
  {
    assert d * (m + y / d) + y % d == d * m + y by {
      assert d * (m + y / d) == d * m + d * (y / d);
    }
    DivUnique(d * m + y, d, m + y / d, y % d);
  }

  lemma LowBits(n: nat)
    ensures n / 8 % 2 == n % 256 / 8 % 2 && n / 4 % 2 == n % 256 / 4 % 2 && n / 2 % 2 == n % 256 / 2 % 2
    ensures n % 2 == n % 256 % 2
  {
    var q, x := n / 256, n % 256;
    DropMultiple(32 * q, x, 8); DropMultiple(16 * q, x / 8, 2);
    DropMultiple(64 * q, x, 4); DropMultiple(32 * q, x / 4, 2);
    DropMultiple(128 * q, x, 2); DropMultiple(64 * q, x / 2, 2);
  }

  lemma QuarterBits(q: nat, y: nat)
    ensures (16 * q + y) / 8 % 2 == y / 8 % 2 && (16 * q + y) / 4 % 2 == y / 4 % 2
    ensures (16 * q + y) / 2 % 2 == y / 2 % 2 && (16 * q + y) % 2 == y % 2
  {
    DropMultiple(2 * q, y, 8); DropMultiple(q, y / 8, 2);
    DropMultiple(4 * q, y, 4); DropMultiple(2 * q, y / 4, 2);
    DropMultiple(8 * q, y, 2); DropMultiple(4 * q, y / 2, 2);
  }

  lemma TwiceDivided(x: nat)
    ensures x / 16 / 8 == x / 128 && x / 16 / 4 == x / 64 && x / 16 / 2 == x / 32
  {
    var y := x / 16;
    DivUnique(x, 128, y / 8, 16 * (y % 8) + x % 16);
    DivUnique(x, 64, y / 4, 16 * (y % 4) + x % 16);
    DivUnique(x, 32, y / 2, 16 * (y % 2) + x % 16);
  }

  lemma HighBits(n: nat)
    ensures n / 16 / 16 == n / 256
    ensures n / 16 / 8 % 2 == n % 256 / 128 % 2 && n / 16 / 4 % 2 == n % 256 / 64 % 2
    ensures n / 16 / 2 % 2 == n % 256 / 32 % 2 && n / 16 % 2 == n % 256 / 16 % 2
  {
    var q, x := n / 256, n % 256;
    var y := x / 16;
    DropMultiple(16 * q, x, 16);
    DivUnique(16 * q + y, 16, q, y);
    QuarterBits(q, y);
    TwiceDivided(x);
  }

  lemma BinaryOctet(n: nat, w: nat)
    ensures Binary(n, w + 8) == Binary(n / 256, w) + ValueBits(n % 256)
  {
    BinaryNibble(n, w + 4);
    BinaryNibble(n / 16, w);
    LowBits(n);
    HighBits(n);
  }

  lemma LastOctet(n: nat, k: nat)
    requires k > 0
    ensures Octets(n, k) == Octets(n / 256, k - 1) + [(n % 256) as bv8]
    ensures Binary(n, 8 * k) == Binary(n / 256, 8 * (k - 1)) + ByteBits((n % 256) as bv8)
  {
    BinaryOctet(n, 8 * (k - 1));
    OctetBits(n % 256);
  }

  /** The octets of a length are its binary form. */
  lemma {:induction false} OctetsBinary(n: nat, k: nat)
    ensures Bits(Octets(n, k)) == Binary(n, 8 * k)
  {
    if k > 0 {
      var b, front := (n % 256) as bv8, Octets(n / 256, k - 1);
      OctetsBinary(n / 256, k - 1);
      LastOctet(n, k);
      BitsOfLast(Octets(n, k), front, b, Binary(n, 8 * k), Binary(n / 256, 8 * (k - 1)), ByteBits(b));
    }
  }

  lemma {:induction false} ZeroByteBits(k: nat)
    ensures Bits(ZeroBytes(k)) == Zeros(8 * k)
  {
    if k > 0 {
      ZeroByteBits(k - 1);
      assert ZeroBytes(k)[..k - 1] == ZeroBytes(k - 1);
    }
  }

  lemma OneByteBits(b: Byte)
    ensures Bits([b]) == ByteBits(b)
  {
    assert [b][..0] == [];
    assert Bits([b]) == Bits([b][..0]) + ByteBits(b);
  }

  lemma Regroup(m: seq<bool>, tail: seq<bool>, e: seq<bool>, y: seq<bool>, z: seq<bool>, l: seq<bool>)
    requires e == tail + [true] + y
    ensures m + e + z + l == (m + tail) + [true] + (y + z) + l
  {}

  lemma ZerosAppend(a: nat, b: nat)
    ensures Zeros(a) + Zeros(b) == Zeros(a + b)
  {}

  lemma PaddedBits(bytes: seq<Byte>, padByte: Byte, l: nat)
    ensures Bits(Padded(bytes, padByte, l)) ==
            Bits(bytes) + ByteBits(padByte) + Zeros(8 * ((55 - |bytes|) % 64)) + Binary(l, 64)
  {
    var z := (55 - |bytes|) % 64;
    BitsAppend(bytes, [padByte]);
    BitsAppend(bytes + [padByte], ZeroBytes(z));
    BitsAppend(bytes + [padByte] + ZeroBytes(z), Octets(l, 8));
    OneByteBits(padByte);
    ZeroByteBits(z);
    OctetsBinary(l, 8);
  }

  lemma ZeroCount(bytes: nat, tail: nat)
    requires tail < 8
    ensures 7 - tail + 8 * ((55 - bytes) % 64) == ZeroBits(8 * bytes + tail)
  {}

  /** With an end byte that holds the last few bits and a 1, padding bytes is padding bits. */
  lemma {:induction false} PaddedSpells(bytes: seq<Byte>, padByte: Byte, tail: seq<bool>, l: nat)
    requires |tail| < 8 && ByteBits(padByte) == tail + [true] + Zeros(7 - |tail|) && l == 8 * |bytes| + |tail|
    ensures Bits(Padded(bytes, padByte, l)) == Pad(Bits(bytes) + tail)
  {
    var z := (55 - |bytes|) % 64;
    PaddedBits(bytes, padByte, l);
    ZeroCount(|bytes|, |tail|);
    ZerosAppend(7 - |tail|, 8 * z);
    Regroup(Bits(bytes), tail, ByteBits(padByte), Zeros(7 - |tail|), Zeros(8 * z), Binary(l, 64));
  }

  lemma PaddedWhole(bytes: seq<Byte>, padByte: Byte, l: nat)
    ensures |Padded(bytes, padByte, l)| % 64 == 0
  {}

  /** Hashing the padded bytes is SHA-1 of the message. */
  lemma {:induction false} PaddedHash(bytes: seq<Byte>, padByte: Byte, tail: seq<bool>, l: nat)
    requires |tail| < 8 && ByteBits(padByte) == tail + [true] + Zeros(7 - |tail|) && l == 8 * |bytes| + |tail|
    ensures |Padded(bytes, padByte, l)| % 64 == 0
    ensures HashBlocks(Padded(bytes, padByte, l)) == Sha1(Bits(bytes) + tail)
  {
    PaddedWhole(bytes, padByte, l);
    PaddedSpells(bytes, padByte, tail, l);
    PackBits(Padded(bytes, padByte, l));
  }

  const MASKS: seq<Byte> := [0x00, 0x80, 0xC0, 0xE0, 0xF0, 0xF8, 0xFC, 0xFE]
  const MARKBIT: seq<Byte> := [0x80, 0x40, 0x20, 0x10, 0x08, 0x04, 0x02, 0x01]

  /** The end byte that SHA1FinalBits makes, and the 0x80 of SHA1Result. */
  function EndByte(messageBits: Byte, length: nat): Byte
    requires length < 8
  {
    (messageBits & MASKS[length]) | MARKBIT[length]
  }

  lemma End0(b: Byte)
    ensures ByteBits(EndByte(b, 0)) == ByteBits(b)[..0] + [true] + Zeros(7)
  {
    EightBits(b);
    EightBits(EndByte(b, 0));
  }

  lemma End1(b: Byte)
    ensures ByteBits(EndByte(b, 1)) == ByteBits(b)[..1] + [true] + Zeros(6)
  {
    EightBits(b);
    EightBits(EndByte(b, 1));
  }

  lemma End2(b: Byte)
    ensures ByteBits(EndByte(b, 2)) == ByteBits(b)[..2] + [true] + Zeros(5)
  {
    EightBits(b);
    EightBits(EndByte(b, 2));
  }

  lemma End3(b: Byte)
    ensures ByteBits(EndByte(b, 3)) == ByteBits(b)[..3] + [true] + Zeros(4)
  {
    EightBits(b);
    EightBits(EndByte(b, 3));
  }

  lemma End4(b: Byte)
    ensures ByteBits(EndByte(b, 4)) == ByteBits(b)[..4] + [true] + Zeros(3)
  {
    EightBits(b);
    EightBits(EndByte(b, 4));
  }

  lemma End5(b: Byte)
    ensures ByteBits(EndByte(b, 5)) == ByteBits(b)[..5] + [true] + Zeros(2)
  {
    EightBits(b);
    EightBits(EndByte(b, 5));
  }

  lemma End6(b: Byte)
    ensures ByteBits(EndByte(b, 6)) == ByteBits(b)[..6] + [true] + Zeros(1)
  {
    EightBits(b);
    EightBits(EndByte(b, 6));
  }

  lemma End7(b: Byte)
    ensures ByteBits(EndByte(b, 7)) == ByteBits(b)[..7] + [true] + Zeros(0)
  {
    EightBits(b);
    EightBits(EndByte(b, 7));
  }

  /** The end byte holds the last bits of the message, a 1 and zeros. */
  lemma EndByteBits(b: Byte, length: nat)
    requires length < 8
    ensures ByteBits(EndByte(b, length)) == ByteBits(b)[..length] + [true] + Zeros(7 - length)
  {
    match length
    case 0 => End0(b);
    case 1 => End1(b);
    case 2 => End2(b);
    case 3 => End3(b);
    case 4 => End4(b);
    case 5 => End5(b);
    case 6 => End6(b);
    case 7 => End7(b);
  }

  // ---------- blocks ----------

  lemma {:induction false} LastBlock(bytes: seq<Byte>, block: seq<Byte>)
    requires |bytes| % 64 == 0 && |block| == 64
    ensures HashBlocks(bytes + block) == Compress(HashBlocks(bytes), Words(block))
  {
    assert (bytes + block)[..|bytes + block| - 64] == bytes;
    assert (bytes + block)[|bytes + block| - 64..] == block;
  }

  /** The four octets of the low word of n. */
  function LowWord(n: nat): seq<Byte> {
    [(n / 0x100_0000 % 256) as bv8, (n / 0x1_0000 % 256) as bv8, (n / 0x100 % 256) as bv8, (n % 256) as bv8]
  }

  lemma OctetsOfWord(n: nat, k: nat)
    ensures Octets(n, k + 4) == Octets(n / 0x1_0000_0000, k) + LowWord(n)
  {
    assert n / 256 / 256 == n / 0x1_0000 && n / 0x1_0000 / 256 == n / 0x100_0000;
    assert n / 0x100_0000 / 256 == n / 0x1_0000_0000;
    assert Octets(n, k + 4) == Octets(n / 256, k + 3) + [(n % 256) as bv8];
    assert Octets(n / 256, k + 3) == Octets(n / 0x1_0000, k + 2) + [(n / 0x100 % 256) as bv8];
    assert Octets(n / 0x1_0000, k + 2) == Octets(n / 0x100_0000, k + 1) + [(n / 0x1_0000 % 256) as bv8];
    assert Octets(n / 0x100_0000, k + 1) == Octets(n / 0x1_0000_0000, k) + [(n / 0x100_0000 % 256) as bv8];
  }

  lemma LowWordOnly(high: nat, low: nat)
    requires low < 0x1_0000_0000
    ensures var n := high * 0x1_0000_0000 + low; n / 0x1_0000_0000 == high && LowWord(n) == LowWord(low)
  {
    DivUnique(high * 0x1_0000_0000 + low, 0x1_0000_0000, high, low);
    DropMultiple(high * 0x100, low, 0x100_0000); DropMultiple(high, low / 0x100_0000, 256);
    DropMultiple(high * 0x1_0000, low, 0x1_0000); DropMultiple(high * 0x100, low / 0x1_0000, 256);
    DropMultiple(high * 0x100_0000, low, 0x100); DropMultiple(high * 0x1_0000, low / 0x100, 256);
  }

  /** The eight stores of the length are its octets. */
  lemma TwoWords(high: nat, low: nat)
    requires high < 0x1_0000_0000 && low < 0x1_0000_0000
    ensures Octets(high * 0x1_0000_0000 + low, 8) == LowWord(high) + LowWord(low)
  {
    OctetsOfWord(high * 0x1_0000_0000 + low, 4);
    LowWordOnly(high, low);
    OctetsOfWord(high, 0);
    assert Octets(high, 4) == LowWord(high);
  }
}
