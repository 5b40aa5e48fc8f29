/**
 SHA-1 on bit strings, as defined in FIPS 180-3: the functions and constants of
 sections 4.1.1 and 4.2.1, the padding of section 5.1.1, the parsing of section 5.2.1
 and the hash computation of section 6.1.2 (sections 3 to 6.1 of RFC 3174).
 */
module Sha1Spec {
  type Byte = bv8
  type Word = bv32

  datatype Hash = Hash(a: Word, b: Word, c: Word, d: Word, e: Word)

  function Rotl(bits: nat, word: Word): Word
    requires bits <= 32
  {
    (word << bits) | (word >> (32 - bits))
  }

  function Ch(x: Word, y: Word, z: Word): Word { (x & y) ^ (!x & z) }
  function Parity(x: Word, y: Word, z: Word): Word { x ^ y ^ z }
  function Maj(x: Word, y: Word, z: Word): Word { (x & y) ^ (x & z) ^ (y & z) }

  function F(t: nat, x: Word, y: Word, z: Word): Word {
    if t < 20 then Ch(x, y, z) else if t < 40 then Parity(x, y, z) else if t < 60 then Maj(x, y, z) else Parity(x, y, z)
  }

  function K(t: nat): Word {
    if t < 20 then 0x5A827999 else if t < 40 then 0x6ED9EBA1 else if t < 60 then 0x8F1BBCDC else 0xCA62C1D6
  }

  const H0 := Hash(0x67452301, 0xEFCDAB89, 0x98BADCFE, 0x10325476, 0xC3D2E1F0)

  function Mix(a: Word, b: Word, c: Word, d: Word): Word {
    Rotl(1, a ^ b ^ c ^ d)
  }

  /** The first n words of the message schedule. */
  function Schedule(m: seq<Word>, n: nat): (w: seq<Word>)
    requires |m| == 16
    ensures |w| == n
  {
    if n <= 16 then m[..n]
    else
      var w := Schedule(m, n - 1);
      w + [Mix(w[n - 4], w[n - 9], w[n - 15], w[n - 17])]
  }

  function Temp(a: Word, f: Word, e: Word, w: Word, k: Word): Word {
    Rotl(5, a) + f + e + w + k
  }

  function Round(t: nat, h: Hash, w: Word): Hash {
    Hash(Temp(h.a, F(t, h.b, h.c, h.d), h.e, w, K(t)), h.a, Rotl(30, h.b), h.c, h.d)
  }

  /** The working variables after t rounds with the schedule w. */
  function Rounds(h: Hash, w: seq<Word>, t: nat): Hash
    requires t <= |w|
  {
    if t == 0 then h else Round(t - 1, Rounds(h, w, t - 1), w[t - 1])
  }

  function Plus(x: Word, y: Word): Word { x + y }

  function Sum(g: Hash, h: Hash): Hash {
    Hash(Plus(g.a, h.a), Plus(g.b, h.b), Plus(g.c, h.c), Plus(g.d, h.d), Plus(g.e, h.e))
  }

  function Compress(h: Hash, m: seq<Word>): Hash
    requires |m| == 16
  {
    Sum(h, Rounds(h, Schedule(m, 80), 80))
  }

  // ---------- bits, bytes and words, most significant first ----------

  /** Bit i of a byte: b & (0x80 >> i). */
  function BitOf(b: Byte, i: nat): bool
    requires i < 8
  {
    match i
    case 0 => b & 0x80 != 0
    case 1 => b & 0x40 != 0
    case 2 => b & 0x20 != 0
    case 3 => b & 0x10 != 0
    case 4 => b & 0x08 != 0
    case 5 => b & 0x04 != 0
    case 6 => b & 0x02 != 0
    case _ => b & 0x01 != 0
  }

  function ByteBits(b: Byte): seq<bool> {
    seq(8, i requires 0 <= i < 8 => BitOf(b, i))
  }

  lemma EightBits(b: Byte)
    ensures ByteBits(b) == [b & 0x80 != 0, b & 0x40 != 0, b & 0x20 != 0, b & 0x10 != 0,
                            b & 0x08 != 0, b & 0x04 != 0, b & 0x02 != 0, b & 0x01 != 0]
  {}

  function Bits(bytes: seq<Byte>): (r: seq<bool>)
    ensures |r| == 8 * |bytes|
  {
    if bytes == [] then [] else Bits(bytes[..|bytes| - 1]) + ByteBits(bytes[|bytes| - 1])
  }

  function Flag(on: bool, mask: Byte): Byte {
    if on then mask else 0
  }

  lemma FlagsBits(b0: bool, b1: bool, b2: bool, b3: bool, b4: bool, b5: bool, b6: bool, b7: bool)
    ensures exists x: Byte :: ByteBits(x) == [b0, b1, b2, b3, b4, b5, b6, b7]
  {
    var x := Flag(b0, 0x80) | Flag(b1, 0x40) | Flag(b2, 0x20) | Flag(b3, 0x10) |
             Flag(b4, 0x08) | Flag(b5, 0x04) | Flag(b6, 0x02) | Flag(b7, 0x01);
    EightBits(x);
  }

  lemma EightOf(b: seq<bool>)
    requires |b| == 8
    ensures b == [b[0], b[1], b[2], b[3], b[4], b[5], b[6], b[7]]
  {}

  lemma ByteWithBits(b: seq<bool>)
    requires |b| == 8
    ensures exists x: Byte :: ByteBits(x) == b
  {
    EightOf(b);
    FlagsBits(b[0], b[1], b[2], b[3], b[4], b[5], b[6], b[7]);
  }

  /** The byte with the given bits. */
  ghost function PackByte(b: seq<bool>): (r: Byte)
    requires |b| == 8
    ensures ByteBits(r) == b
  {
    ByteWithBits(b);
    var x: Byte :| ByteBits(x) == b;
    x
  }

  ghost function Pack(bits: seq<bool>): seq<Byte>
    requires |bits| % 8 == 0
  {
    if bits == [] then [] else Pack(bits[..|bits| - 8]) + [PackByte(bits[|bits| - 8..])]
  }

  function WordOf(b0: Byte, b1: Byte, b2: Byte, b3: Byte): Word {
    (b0 as bv32 << 24) | (b1 as bv32 << 16) | (b2 as bv32 << 8) | b3 as bv32
  }

  function Words(block: seq<Byte>): seq<Word>
    requires |block| == 64
  {
    seq(16, t requires 0 <= t < 16 => WordOf(block[4 * t], block[4 * t + 1], block[4 * t + 2], block[4 * t + 3]))
  }

  /** The hash value after the blocks of some whole number of them. */
  function HashBlocks(bytes: seq<Byte>): Hash
    requires |bytes| % 64 == 0
  {
    if bytes == [] then H0
    else Compress(HashBlocks(bytes[..|bytes| - 64]), Words(bytes[|bytes| - 64..]))
  }

  // ---------- padding ----------

  /** n in binary, in w bits. */
  function Binary(n: nat, w: nat): (r: seq<bool>)
    ensures |r| == w
  {
    if w == 0 then [] else Binary(n / 2, w - 1) + [n % 2 == 1]
  }

  /** The smallest non-negative k with l + 1 + k congruent to 448 modulo 512. */
  function ZeroBits(l: nat): nat {
    (447 - l) % 512
  }

  function Zeros(k: nat): seq<bool> {
    seq(k, i => false)
  }

  function Pad(m: seq<bool>): seq<bool> {
    m + [true] + Zeros(ZeroBits(|m|)) + Binary(|m|, 64)
  }

  const TWO_TO_THE_64: nat := 0x1_0000_0000_0000_0000

  lemma PaddedLength(m: seq<bool>)
    ensures |Pad(m)| % 512 == 0 && (|m| + 1 + ZeroBits(|m|)) % 512 == 448
  {}

  lemma FewestZeros(l: nat, k: nat)
    requires (l + 1 + k) % 512 == 448
    ensures ZeroBits(l) <= k
  {}

  lemma {:induction false} PackLength(bits: seq<bool>)
    requires |bits| % 8 == 0
    ensures |Pack(bits)| == |bits| / 8
  {
    if bits != [] { PackLength(bits[..|bits| - 8]); }
  }

  ghost function Sha1(m: seq<bool>): Hash {
    PaddedLength(m);
    assert |Pack(Pad(m))| % 64 == 0 by { PackLength(Pad(m)); }
    HashBlocks(Pack(Pad(m)))
  }

  function WordIn(h: Hash, j: nat): Word {
    if j == 0 then h.a else if j == 1 then h.b else if j == 2 then h.c else if j == 3 then h.d else h.e
  }

  /** w >> 8 * (3 - k), cut down to a byte. */
  function Octet(w: Word, k: nat): Byte
    requires k < 4
  {
    match k
    case 0 => ((w >> 24) & 0xFF) as bv8
    case 1 => ((w >> 16) & 0xFF) as bv8
    case 2 => ((w >> 8) & 0xFF) as bv8
    case _ => (w & 0xFF) as bv8
  }

  function DigestByte(h: Hash, i: nat): Byte
    requires i < 20
  {
    Octet(WordIn(h, i / 4), i % 4)
  }

  function Digest(h: Hash): seq<Byte> {
    seq(20, i requires 0 <= i < 20 => DigestByte(h, i))
  }

  // ---------- padding loses nothing ----------

  function Pow2(w: nat): nat {
    if w == 0 then 1 else 2 * Pow2(w - 1)
  }

  lemma {:induction false} BinaryInjective(a: nat, b: nat, w: nat, bound: nat)
    requires Binary(a, w) == Binary(b, w) && a < bound && b < bound && bound == Pow2(w)
    ensures a == b
  {
    if w > 0 {
      var x, y := Binary(a / 2, w - 1), Binary(b / 2, w - 1);
      assert Binary(a, w)[..w - 1] == x && Binary(b, w)[..w - 1] == y;
      assert Binary(a, w)[w - 1] == (a % 2 == 1) && Binary(b, w)[w - 1] == (b % 2 == 1);
      BinaryInjective(a / 2, b / 2, w - 1, Pow2(w - 1));
    }
  }

  lemma PadEnds(m: seq<bool>)
    ensures Pad(m)[..|m|] == m && Pad(m)[|Pad(m)| - 64..] == Binary(|m|, 64)
  {}

  lemma Pow2Plus8(w: nat)
    ensures Pow2(w + 8) == 256 * Pow2(w)
  {
    assert Pow2(w + 2) == 4 * Pow2(w);
    assert Pow2(w + 4) == 4 * Pow2(w + 2);
    assert Pow2(w + 6) == 4 * Pow2(w + 4);
    assert Pow2(w + 8) == 4 * Pow2(w + 6);
  }

  lemma Pow2At64()
    ensures Pow2(64) == TWO_TO_THE_64
  {
    Pow2Plus8(0); Pow2Plus8(8); Pow2Plus8(16); Pow2Plus8(24);
    Pow2Plus8(32); Pow2Plus8(40); Pow2Plus8(48); Pow2Plus8(56);
  }

  /** Different messages of fewer than 2^64 bits are padded differently. */
  lemma {:induction false} PadInjective(m: seq<bool>, n: seq<bool>)
    requires |m| < TWO_TO_THE_64 && |n| < TWO_TO_THE_64 && Pad(m) == Pad(n)
    ensures m == n
  {
    PadEnds(m);
    PadEnds(n);
    Pow2At64();
    BinaryInjective(|m|, |n|, 64, TWO_TO_THE_64);
  }

  // ---------- bytes that spell a bit string ----------

  lemma SameBits(x: Byte, y: Byte)
    requires ByteBits(x) == ByteBits(y)
    ensures x == y
  {
    EightBits(x);
    EightBits(y);
  }

  lemma PackByteBits(b: Byte)
    ensures PackByte(ByteBits(b)) == b
  {
    SameBits(PackByte(ByteBits(b)), b);
  }

  lemma Halves(x: seq<bool>, y: seq<bool>)
    ensures (x + y)[..|x|] == x && (x + y)[|x|..] == y
  {}

  lemma PackLast(x: seq<bool>, y: seq<bool>, bytes: seq<Byte>, b: Byte)
    requires |x| % 8 == 0 && |y| == 8 && Pack(x) == bytes && PackByte(y) == b
    ensures Pack(x + y) == bytes + [b]
  {
    Halves(x, y);
  }

  lemma PackNext(x: seq<bool>, bytes: seq<Byte>, b: Byte)
    requires |x| % 8 == 0 && Pack(x) == bytes
    ensures Pack(x + ByteBits(b)) == bytes + [b]
  {
    PackByteBits(b);
    PackLast(x, ByteBits(b), bytes, b);
  }

  lemma PackOneMore(bytes: seq<Byte>, b: Byte)
    requires Pack(Bits(bytes)) == bytes
    ensures Pack(Bits(bytes) + ByteBits(b)) == bytes + [b]
  {
    PackNext(Bits(bytes), bytes, b);
  }

  lemma InitLast(s: seq<Byte>)
    requires s != []
    ensures s == s[..|s| - 1] + [s[|s| - 1]]
  {}

  /** The only byte string with the bits of a padded message is the one Sha1 hashes. */
  lemma {:induction false} PackBits(bytes: seq<Byte>)
    ensures Pack(Bits(bytes)) == bytes
  {
    if bytes != [] {
      var n := |bytes| - 1;
      PackBits(bytes[..n]);
      PackOneMore(bytes[..n], bytes[n]);
      InitLast(bytes);
    }
  }

  lemma BitsLast(x: seq<Byte>, b: Byte)
    ensures Bits(x + [b]) == Bits(x) + ByteBits(b)
  {
    assert (x + [b])[..|x|] == x;
  }

  /** Bytes and bits that agree on all but a last byte and its bits. */
  lemma BitsOfLast(bytes: seq<Byte>, front: seq<Byte>, b: Byte, bits: seq<bool>, x: seq<bool>, y: seq<bool>)
    requires bytes == front + [b] && bits == x + y && Bits(front) == x && ByteBits(b) == y
    ensures Bits(bytes) == bits
  {
    BitsLast(front, b);
  }

  lemma PackSplit(bits: seq<bool>)
    requires bits != [] && |bits| % 8 == 0
    ensures var n := |bits| - 8;
            bits == bits[..n] + bits[n..] && Pack(bits) == Pack(bits[..n]) + [PackByte(bits[n..])]
  {}

  /** No bit of a whole number of bytes is lost. */
  lemma {:induction false} BitsPacked(bits: seq<bool>)
    requires |bits| % 8 == 0
    ensures Bits(Pack(bits)) == bits
  {
    if bits != [] {
      var n := |bits| - 8;
      BitsPacked(bits[..n]);
      PackSplit(bits);
      BitsOfLast(Pack(bits), Pack(bits[..n]), PackByte(bits[n..]), bits, bits[..n], bits[n..]);
    }
  }

  lemma WholeBytes(m: seq<bool>)
    ensures |Pad(m)| % 512 == 0 && |Pad(m)| % 8 == 0 && |Pad(m)| / 8 % 64 == 0
  {
    PaddedLength(m);
  }

  /** SHA-1 hashes exactly the bits of the padded message. */
  lemma PaddedBitsHashed(m: seq<bool>)
    ensures |Pad(m)| % 8 == 0 && |Pack(Pad(m))| % 64 == 0
    ensures Bits(Pack(Pad(m))) == Pad(m) && Sha1(m) == HashBlocks(Pack(Pad(m)))
  {
    WholeBytes(m);
    PackLength(Pad(m));
    BitsPacked(Pad(m));
  }

  lemma {:induction false} BitsAppend(x: seq<Byte>, y: seq<Byte>)
    ensures Bits(x + y) == Bits(x) + Bits(y)
  {
    if y == [] {
      assert x + y == x;
    } else {
      var n := |y| - 1;
      assert (x + y)[..|x + y| - 1] == x + y[..n];
      BitsAppend(x, y[..n]);
    }
  }

  // ---------- the bits of words ----------

  // The eight bits of each byte of a word.
  function Bits0(w: Word): seq<bool> {
    [w & 0x80000000 != 0, w & 0x40000000 != 0, w & 0x20000000 != 0, w & 0x10000000 != 0,
     w & 0x08000000 != 0, w & 0x04000000 != 0, w & 0x02000000 != 0, w & 0x01000000 != 0]
  }

  function Bits1(w: Word): seq<bool> {
    [w & 0x00800000 != 0, w & 0x00400000 != 0, w & 0x00200000 != 0, w & 0x00100000 != 0,
     w & 0x00080000 != 0, w & 0x00040000 != 0, w & 0x00020000 != 0, w & 0x00010000 != 0]
  }

  function Bits2(w: Word): seq<bool> {
    [w & 0x00008000 != 0, w & 0x00004000 != 0, w & 0x00002000 != 0, w & 0x00001000 != 0,
     w & 0x00000800 != 0, w & 0x00000400 != 0, w & 0x00000200 != 0, w & 0x00000100 != 0]
  }

  function Bits3(w: Word): seq<bool> {
    [w & 0x00000080 != 0, w & 0x00000040 != 0, w & 0x00000020 != 0, w & 0x00000010 != 0,
     w & 0x00000008 != 0, w & 0x00000004 != 0, w & 0x00000002 != 0, w & 0x00000001 != 0]
  }

  /** The 32 bits of a word, the most significant first. */
  function WordBits(w: Word): (r: seq<bool>)
    ensures |r| == 32
  {
    Bits0(w) + Bits1(w) + Bits2(w) + Bits3(w)
  }

  function HashBits(h: Hash): seq<bool> {
    WordBits(h.a) + WordBits(h.b) + WordBits(h.c) + WordBits(h.d) + WordBits(h.e)
  }

  lemma Byte0(b0: Byte, b1: Byte, b2: Byte, b3: Byte)
    ensures Bits0(WordOf(b0, b1, b2, b3)) == ByteBits(b0)
  {
    EightBits(b0);
  }

  lemma Byte1(b0: Byte, b1: Byte, b2: Byte, b3: Byte)
    ensures Bits1(WordOf(b0, b1, b2, b3)) == ByteBits(b1)
  {
    EightBits(b1);
  }

  lemma Byte2(b0: Byte, b1: Byte, b2: Byte, b3: Byte)
    ensures Bits2(WordOf(b0, b1, b2, b3)) == ByteBits(b2)
  {
    EightBits(b2);
  }

  lemma Byte3(b0: Byte, b1: Byte, b2: Byte, b3: Byte)
    ensures Bits3(WordOf(b0, b1, b2, b3)) == ByteBits(b3)
  {
    EightBits(b3);
  }

  /** A word has the bits of its four bytes, in order. */
  lemma WordOfBits(b0: Byte, b1: Byte, b2: Byte, b3: Byte)
    ensures WordBits(WordOf(b0, b1, b2, b3)) == ByteBits(b0) + ByteBits(b1) + ByteBits(b2) + ByteBits(b3)
  {
    Byte0(b0, b1, b2, b3);
    Byte1(b0, b1, b2, b3);
    Byte2(b0, b1, b2, b3);
    Byte3(b0, b1, b2, b3);
  }

  lemma TwoBits(b0: Byte, b1: Byte)
    ensures Bits([b0, b1]) == ByteBits(b0) + ByteBits(b1)
  {
    BitsLast([], b0);
    BitsLast([b0], b1);
    assert [] + [b0] == [b0] && [b0] + [b1] == [b0, b1];
  }

  lemma Pairs(x: seq<bool>, y: seq<bool>, z: seq<bool>, w: seq<bool>)
    ensures (x + y) + (z + w) == x + y + z + w
  {}

  lemma FourBits(b0: Byte, b1: Byte, b2: Byte, b3: Byte)
    ensures Bits([b0, b1, b2, b3]) == ByteBits(b0) + ByteBits(b1) + ByteBits(b2) + ByteBits(b3)
  {
    TwoBits(b0, b1);
    TwoBits(b2, b3);
    assert [b0, b1] + [b2, b3] == [b0, b1, b2, b3];
    BitsAppend([b0, b1], [b2, b3]);
    Pairs(ByteBits(b0), ByteBits(b1), ByteBits(b2), ByteBits(b3));
  }

  lemma Middle(x: seq<bool>, y: seq<bool>, z: seq<bool>, i: nat, j: nat)
    requires i == |x| && j == i + |y|
    ensures (x + y + z)[i..j] == y
  {}

  lemma Thirds(s: seq<Byte>, i: nat, j: nat)
    requires i <= j <= |s|
    ensures s == s[..i] + s[i..j] + s[j..]
  {}

  lemma BitsSlice(bytes: seq<Byte>, i: nat, j: nat)
    requires i <= j <= |bytes|
    ensures Bits(bytes)[8 * i..8 * j] == Bits(bytes[i..j])
  {
    Thirds(bytes, i, j);
    BitsAppend(bytes[..i], bytes[i..j]);
    BitsAppend(bytes[..i] + bytes[i..j], bytes[j..]);
    Middle(Bits(bytes[..i]), Bits(bytes[i..j]), Bits(bytes[j..]), 8 * i, 8 * j);
  }

  lemma WordAt(block: seq<Byte>, i: nat, w: Word)
    requires i + 4 <= |block| && w == WordOf(block[i], block[i + 1], block[i + 2], block[i + 3])
    ensures WordBits(w) == Bits(block[i..i + 4])
  {
    WordOfBits(block[i], block[i + 1], block[i + 2], block[i + 3]);
    FourBits(block[i], block[i + 1], block[i + 2], block[i + 3]);
    assert block[i..i + 4] == [block[i], block[i + 1], block[i + 2], block[i + 3]];
  }

  /** The words of a block have the bits of the block, 32 each, in order. */
  lemma WordsBits(block: seq<Byte>, t: nat)
    requires |block| == 64 && t < 16
    ensures WordBits(Words(block)[t]) == Bits(block)[32 * t..32 * t + 32]
  {
    WordAt(block, 4 * t, Words(block)[t]);
    BitsSlice(block, 4 * t, 4 * t + 4);
  }

  lemma Octet0(w: Word)
    ensures ByteBits(Octet(w, 0)) == Bits0(w)
  {
    EightBits(Octet(w, 0));
  }

  lemma Octet1(w: Word)
    ensures ByteBits(Octet(w, 1)) == Bits1(w)
  {
    EightBits(Octet(w, 1));
  }

  lemma Octet2(w: Word)
    ensures ByteBits(Octet(w, 2)) == Bits2(w)
  {
    EightBits(Octet(w, 2));
  }

  lemma Octet3(w: Word)
    ensures ByteBits(Octet(w, 3)) == Bits3(w)
  {
    EightBits(Octet(w, 3));
  }

  function Octets4(w: Word): seq<Byte> { [Octet(w, 0), Octet(w, 1), Octet(w, 2), Octet(w, 3)] }

  lemma FourOctets(w: Word)
    ensures Bits(Octets4(w)) == WordBits(w)
  {
    Octet0(w);
    Octet1(w);
    Octet2(w);
    Octet3(w);
    FourBits(Octet(w, 0), Octet(w, 1), Octet(w, 2), Octet(w, 3));
  }

  lemma FiveBits(a: seq<Byte>, b: seq<Byte>, c: seq<Byte>, d: seq<Byte>, e: seq<Byte>)
    ensures Bits(a + b + c + d + e) == Bits(a) + Bits(b) + Bits(c) + Bits(d) + Bits(e)
  {
    BitsAppend(a, b);
    BitsAppend(a + b, c);
    BitsAppend(a + b + c, d);
    BitsAppend(a + b + c + d, e);
  }

  lemma Fifths(s: seq<Byte>)
    requires |s| == 20
    ensures s == s[0..4] + s[4..8] + s[8..12] + s[12..16] + s[16..20]
  {}

  lemma FiveWords(d: seq<Byte>, v: seq<bool>, w: seq<bool>, x: seq<bool>, y: seq<bool>, z: seq<bool>)
    requires |d| == 20 && Bits(d[0..4]) == v && Bits(d[4..8]) == w && Bits(d[8..12]) == x
    requires Bits(d[12..16]) == y && Bits(d[16..20]) == z
    ensures Bits(d) == v + w + x + y + z
  {
    Fifths(d);
    FiveBits(d[0..4], d[4..8], d[8..12], d[12..16], d[16..20]);
  }

  lemma DigestAt(h: Hash, j: nat, k: nat)
    requires j < 5 && k < 4
    ensures Digest(h)[4 * j + k] == Octet(WordIn(h, j), k)
  {
    assert (4 * j + k) / 4 == j && (4 * j + k) % 4 == k;
  }

  lemma SliceOfFour(s: seq<Byte>, i: nat, a: Byte, b: Byte, c: Byte, d: Byte)
    requires i + 4 <= |s| && s[i] == a && s[i + 1] == b && s[i + 2] == c && s[i + 3] == d
    ensures s[i..i + 4] == [a, b, c, d]
  {}

  lemma DigestSlice(h: Hash, j: nat)
    requires j < 5
    ensures Digest(h)[4 * j..4 * j + 4] == Octets4(WordIn(h, j))
  {
    var w := WordIn(h, j);
    DigestAt(h, j, 0);
    DigestAt(h, j, 1);
    DigestAt(h, j, 2);
    DigestAt(h, j, 3);
    SliceOfFour(Digest(h), 4 * j, Octet(w, 0), Octet(w, 1), Octet(w, 2), Octet(w, 3));
  }

  /** Bytes 4 j to 4 j + 3 of a digest are the j-th word, most significant bit first. */
  lemma DigestWord(h: Hash, j: nat)
    requires j < 5
    ensures |Digest(h)| == 20 && Bits(Digest(h)[4 * j..4 * j + 4]) == WordBits(WordIn(h, j))
  {
    DigestSlice(h, j);
    FourOctets(WordIn(h, j));
  }

  /** The digest has the bits of the hash: five words, each most significant bit first. */
  lemma DigestBits(h: Hash)
    ensures |Digest(h)| == 20 && Bits(Digest(h)) == HashBits(h)
  {
    var d := Digest(h);
    DigestWord(h, 0);
    DigestWord(h, 1);
    DigestWord(h, 2);
    DigestWord(h, 3);
    DigestWord(h, 4);
    FiveWords(d, WordBits(h.a), WordBits(h.b), WordBits(h.c), WordBits(h.d), WordBits(h.e));
  }

  // ---------- the recurrences ----------

  lemma ScheduleLast(m: seq<Word>, n: nat)
    requires |m| == 16 && n > 16
    ensures Schedule(m, n)[..n - 1] == Schedule(m, n - 1)
    ensures var w := Schedule(m, n - 1);
            Schedule(m, n)[n - 1] == Rotl(1, w[n - 4] ^ w[n - 9] ^ w[n - 15] ^ w[n - 17])
  {}

  lemma {:induction false} SchedulePrefix(m: seq<Word>, k: nat, n: nat)
    requires |m| == 16 && k <= n
    ensures Schedule(m, n)[..k] == Schedule(m, k)
    decreases n
  {
    if n <= 16 {
    } else if k < n {
      SchedulePrefix(m, k, n - 1);
      ScheduleLast(m, n);
      assert Schedule(m, n)[..k] == Schedule(m, n)[..n - 1][..k];
    }
  }

  lemma PrefixAt(w: seq<Word>, v: seq<Word>, t: nat)
    requires t < |v| <= |w| && w[..|v|] == v
    ensures w[t] == v[t]
  {}

  lemma ScheduleNext(m: seq<Word>, t: nat, w: seq<Word>)
    requires |m| == 16 && 16 <= t < |w| && w[..t] == Schedule(m, t) && w[..t + 1] == Schedule(m, t + 1)
    ensures w[t] == Rotl(1, w[t - 3] ^ w[t - 8] ^ w[t - 14] ^ w[t - 16])
  {
    var v := Schedule(m, t);
    PrefixAt(w, Schedule(m, t + 1), t);
    PrefixAt(w, v, t - 3);
    PrefixAt(w, v, t - 8);
    PrefixAt(w, v, t - 14);
    PrefixAt(w, v, t - 16);
    ScheduleLast(m, t + 1);
  }

  /** The schedule starts with the block and goes on with the recurrence of the standard. */
  lemma ScheduleAt(m: seq<Word>, n: nat, t: nat)
    requires |m| == 16 && t < n
    ensures t < 16 ==> Schedule(m, n)[t] == m[t]
    ensures t >= 16 ==>
              var w := Schedule(m, n);
              w[t] == Rotl(1, w[t - 3] ^ w[t - 8] ^ w[t - 14] ^ w[t - 16])
  {
    SchedulePrefix(m, t + 1, n);
    SchedulePrefix(m, t, n);
    if t < 16 {
      PrefixAt(Schedule(m, n), Schedule(m, t + 1), t);
    } else {
      ScheduleNext(m, t, Schedule(m, n));
    }
  }
}
