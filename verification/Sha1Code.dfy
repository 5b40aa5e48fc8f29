/**
 The incremental SHA-1 of sha1.c over one `SHA1Context`: bytes gather in a 64-byte
 buffer that is compressed in place, lengths are kept in two 32-bit words, and error
 codes stick. A ghost field says what the context stands for.
 */
module Sha1Code {
  import opened Options
  import opened Sha1Spec
  import opened Sha1Padding

  const SUCCESS: int := 0
  const INPUT_TOO_LONG: int := 2
  const STATE_ERROR: int := 3
  const BAD_PARAM: int := 4

  const BLOCK_SIZE: int := 64
  const TWO_TO_THE_32: int := 0x1_0000_0000

  // The two forms of the macros in sha-private.h.
  function ShaCh(modified: bool, x: Word, y: Word, z: Word): Word {
    if modified then (x & (y ^ z)) ^ z else (x & y) ^ (!x & z)
  }

  function ShaMaj(modified: bool, x: Word, y: Word, z: Word): Word {
    if modified then (x & (y | z)) | (y & z) else (x & y) ^ (x & z) ^ (y & z)
  }

  function ShaParity(x: Word, y: Word, z: Word): Word { x ^ y ^ z }

  lemma SameCh(x: Word, y: Word, z: Word)
    ensures (x & (y ^ z)) ^ z == Ch(x, y, z)
  {}

  lemma SameMaj(x: Word, y: Word, z: Word)
    ensures (x & (y | z)) | (y & z) == Maj(x, y, z)
  {}

  /** Either form computes the function of the standard. */
  lemma MacroForms(modified: bool, x: Word, y: Word, z: Word)
    ensures ShaCh(modified, x, y, z) == Ch(x, y, z)
    ensures ShaMaj(modified, x, y, z) == Maj(x, y, z)
  {
    SameCh(x, y, z);
    SameMaj(x, y, z);
  }

  method FirstWords(block: seq<Byte>, w: array<Word>)
    requires |block| == 64 && w.Length == 80
    modifies w
    ensures w[..16] == Words(block)
  {
    for t := 0 to 16
      invariant forall i :: 0 <= i < t ==> w[i] == Words(block)[i]
    {
      w[t] := WordOf(block[4 * t], block[4 * t + 1], block[4 * t + 2], block[4 * t + 3]);
    }
  }

  /** The message schedule in an 80-word array. */
  method Expand(block: seq<Byte>) returns (w: array<Word>)
    requires |block| == 64
    ensures fresh(w) && w[..] == Schedule(Words(block), 80)
  {
    ghost var m := Words(block);
    w := new Word[80];
    FirstWords(block, w);
    for t := 16 to 80
      invariant w[..t] == Schedule(m, t)
    {
      w[t] := Mix(w[t - 3], w[t - 8], w[t - 14], w[t - 16]);
    }
  }

  /** A step of the four loops is the round of the standard. */
  lemma ChStep(modified: bool, t: nat, h: Hash, w: Word)
    requires t < 20
    ensures Round(t, h, w) ==
            Hash(Temp(h.a, ShaCh(modified, h.b, h.c, h.d), h.e, w, 0x5A827999), h.a, Rotl(30, h.b), h.c, h.d)
  {
    MacroForms(modified, h.b, h.c, h.d);
  }

  lemma MajStep(modified: bool, t: nat, h: Hash, w: Word)
    requires 40 <= t < 60
    ensures Round(t, h, w) ==
            Hash(Temp(h.a, ShaMaj(modified, h.b, h.c, h.d), h.e, w, 0x8F1BBCDC), h.a, Rotl(30, h.b), h.c, h.d)
  {
    MacroForms(modified, h.b, h.c, h.d);
  }

  // The four loops of 20 rounds over the working variables.

  method ChRounds(modified: bool, g: Hash, w: array<Word>, ghost h: Hash) returns (r: Hash)
    requires w.Length == 80 && g == Rounds(h, w[..], 0)
    ensures r == Rounds(h, w[..], 20)
  {
    var A, B, C, D, E := g.a, g.b, g.c, g.d, g.e;
    for t := 0 to 20
      invariant Hash(A, B, C, D, E) == Rounds(h, w[..], t)
    {
      ChStep(modified, t, Hash(A, B, C, D, E), w[t]);
      var temp := Temp(A, ShaCh(modified, B, C, D), E, w[t], 0x5A827999);
      E, D, C, B, A := D, C, Rotl(30, B), A, temp;
    }
    r := Hash(A, B, C, D, E);
  }

  method ParityRounds(g: Hash, w: array<Word>, ghost h: Hash) returns (r: Hash)
    requires w.Length == 80 && g == Rounds(h, w[..], 20)
    ensures r == Rounds(h, w[..], 40)
  {
    var A, B, C, D, E := g.a, g.b, g.c, g.d, g.e;
    for t := 20 to 40
      invariant Hash(A, B, C, D, E) == Rounds(h, w[..], t)
    {
      var temp := Temp(A, ShaParity(B, C, D), E, w[t], 0x6ED9EBA1);
      E, D, C, B, A := D, C, Rotl(30, B), A, temp;
    }
    r := Hash(A, B, C, D, E);
  }

  method MajRounds(modified: bool, g: Hash, w: array<Word>, ghost h: Hash) returns (r: Hash)
    requires w.Length == 80 && g == Rounds(h, w[..], 40)
    ensures r == Rounds(h, w[..], 60)
  {
    var A, B, C, D, E := g.a, g.b, g.c, g.d, g.e;
    for t := 40 to 60
      invariant Hash(A, B, C, D, E) == Rounds(h, w[..], t)
    {
      MajStep(modified, t, Hash(A, B, C, D, E), w[t]);
      var temp := Temp(A, ShaMaj(modified, B, C, D), E, w[t], 0x8F1BBCDC);
      E, D, C, B, A := D, C, Rotl(30, B), A, temp;
    }
    r := Hash(A, B, C, D, E);
  }

  method LastRounds(g: Hash, w: array<Word>, ghost h: Hash) returns (r: Hash)
    requires w.Length == 80 && g == Rounds(h, w[..], 60)
    ensures r == Rounds(h, w[..], 80)
  {
    var A, B, C, D, E := g.a, g.b, g.c, g.d, g.e;
    for t := 60 to 80
      invariant Hash(A, B, C, D, E) == Rounds(h, w[..], t)
    {
      var temp := Temp(A, ShaParity(B, C, D), E, w[t], 0xCA62C1D6);
      E, D, C, B, A := D, C, Rotl(30, B), A, temp;
    }
    r := Hash(A, B, C, D, E);
  }

  /** The block function, whichever form of the macros is compiled in. */
  method CompressBlock(modified: bool, h: Hash, block: seq<Byte>) returns (r: Hash)
    requires |block| == 64
    ensures r == Compress(h, Words(block))
  {
    var w := Expand(block);
    var g := ChRounds(modified, h, w, h);
    g := ParityRounds(g, w, h);
    g := MajRounds(modified, g, w, h);
    g := LastRounds(g, w, h);
    r := Hash(Plus(h.a, g.a), Plus(h.b, g.b), Plus(h.c, g.c), Plus(h.d, g.d), Plus(h.e, g.e));
  }

  lemma SplitAt(s: seq<Byte>, k: nat)
    requires k <= |s|
    ensures s == s[..k] + s[k..]
  {}

  /** The first few bits of b. */
  function LastBits(b: Byte, length: nat): (r: seq<bool>)
    requires length < 8
    ensures |r| == length
  {
    ByteBits(b)[..length]
  }

  lemma EndByteSpells(b: Byte, length: nat)
    requires length < 8
    ensures ByteBits(EndByte(b, length)) == LastBits(b, length) + [true] + Zeros(7 - length)
  {
    EndByteBits(b, length);
  }

  lemma MarkSpells()
    ensures ByteBits(0x80) == [] + [true] + Zeros(7)
  {
    EightBits(0x80);
  }

  lemma Gap(n: nat)
    ensures (55 - n) % 64 == if n % 64 < 56 then 55 - n % 64 else 119 - n % 64
  {}

  lemma OnePieces(whole: seq<Byte>, buffer: seq<Byte>, p: seq<Byte>, z: seq<Byte>, l: seq<Byte>)
    ensures (whole + buffer) + p + z + l == whole + (buffer + p + z + l)
  {}

  lemma TwoPieces(whole: seq<Byte>, buffer: seq<Byte>, p: seq<Byte>, y: seq<Byte>, z: seq<Byte>, l: seq<Byte>)
    ensures (whole + buffer) + p + (y + z) + l == (whole + (buffer + p + y)) + (z + l)
  {}

  lemma ZeroBytesAppend(a: nat, b: nat)
    ensures ZeroBytes(a + b) == ZeroBytes(a) + ZeroBytes(b)
  {}

  /** h covers the whole blocks of bytes, and buffer is the rest. */
  ghost predicate Gathered(h: Hash, buffer: seq<Byte>, bytes: seq<Byte>) {
    && |buffer| == |bytes| % 64
    && buffer == bytes[|bytes| - |buffer|..]
    && h == HashBlocks(bytes[..|bytes| - |buffer|])
  }

  /** The last block when the end byte and the length fit into one. */
  function EndBlock(buffer: seq<Byte>, padByte: Byte, l: nat): (r: seq<Byte>)
    requires |buffer| < 56
    ensures |r| == 64
  {
    buffer + [padByte] + ZeroBytes(55 - |buffer|) + Octets(l, 8)
  }

  /** The last two blocks when they do not. */
  function FullBlock(buffer: seq<Byte>, padByte: Byte): (r: seq<Byte>)
    requires |buffer| < 64
    ensures |r| == 64
  {
    buffer + [padByte] + ZeroBytes(63 - |buffer|)
  }

  function LengthBlock(l: nat): (r: seq<Byte>)
    ensures |r| == 64
  {
    ZeroBytes(56) + Octets(l, 8)
  }

  lemma OneBlock(h: Hash, buffer: seq<Byte>, bytes: seq<Byte>, padByte: Byte, l: nat)
    requires Gathered(h, buffer, bytes) && |buffer| < 56
    ensures |Padded(bytes, padByte, l)| % 64 == 0
    ensures HashBlocks(Padded(bytes, padByte, l)) == Compress(h, Words(EndBlock(buffer, padByte, l)))
  {
    PaddedWhole(bytes, padByte, l);
    Gap(|bytes|);
    var whole := bytes[..|bytes| - |buffer|];
    SplitAt(bytes, |whole|);
    OnePieces(whole, buffer, [padByte], ZeroBytes(55 - |buffer|), Octets(l, 8));
    LastBlock(whole, EndBlock(buffer, padByte, l));
  }

  lemma TwoBlocks(h: Hash, buffer: seq<Byte>, bytes: seq<Byte>, padByte: Byte, l: nat)
    requires Gathered(h, buffer, bytes) && 56 <= |buffer| < 64
    ensures |Padded(bytes, padByte, l)| % 64 == 0
    ensures HashBlocks(Padded(bytes, padByte, l)) ==
            Compress(Compress(h, Words(FullBlock(buffer, padByte))), Words(LengthBlock(l)))
  {
    PaddedWhole(bytes, padByte, l);
    Gap(|bytes|);
    var whole := bytes[..|bytes| - |buffer|];
    var first, last := FullBlock(buffer, padByte), LengthBlock(l);
    SplitAt(bytes, |whole|);
    ZeroBytesAppend(63 - |buffer|, 56);
    TwoPieces(whole, buffer, [padByte], ZeroBytes(63 - |buffer|), ZeroBytes(56), Octets(l, 8));
    LastBlock(whole, first);
    LastBlock(whole + first, last);
  }

  lemma GatherByte(h: Hash, buffer: seq<Byte>, bytes: seq<Byte>, b: Byte)
    requires Gathered(h, buffer, bytes) && |buffer| < 63
    ensures Gathered(h, buffer + [b], bytes + [b])
  {
    var whole := bytes[..|bytes| - |buffer|];
    assert bytes + [b] == whole + (buffer + [b]);
    assert (bytes + [b])[|whole|..] == buffer + [b];
    assert (bytes + [b])[..|whole|] == whole;
  }

  lemma GatherBlock(h: Hash, buffer: seq<Byte>, bytes: seq<Byte>, b: Byte)
    requires Gathered(h, buffer, bytes) && |buffer| == 63
    ensures Gathered(Compress(h, Words(buffer + [b])), [], bytes + [b])
  {
    var whole := bytes[..|bytes| - |buffer|];
    assert bytes + [b] == whole + (buffer + [b]);
    LastBlock(whole, buffer + [b]);
    assert (bytes + [b])[..|bytes| + 1] == bytes + [b];
  }

  lemma Gather(h: Hash, buffer: seq<Byte>, bytes: seq<Byte>, b: Byte)
    requires Gathered(h, buffer, bytes)
    ensures |buffer| < 63 ==> Gathered(h, buffer + [b], bytes + [b])
    ensures |buffer| == 63 ==> Gathered(Compress(h, Words(buffer + [b])), [], bytes + [b])
  {
    if |buffer| < 63 { GatherByte(h, buffer, bytes, b); }
    else if |buffer| == 63 { GatherBlock(h, buffer, bytes, b); }
  }

  /** What a context stands for: a message of whole bytes so far, a finished message of
      which it holds the digest, or a failure. */
  datatype Stage = Hashing(absorbed: seq<Byte>) | Finished(message: seq<bool>) | Failed

  // The byte on which a message reaches 2^64 bits.
  const LIMIT: nat := 0x2000_0000_0000_0000

  class SHA1Context {
    const modified: bool          // USE_MODIFIED_MACROS
    const block: array<Byte>
    var hash: Hash
    var lengthHigh: nat
    var lengthLow: nat
    var index: nat
    var computed: bool
    var corrupted: int
    ghost var stage: Stage

    ghost function Length(): nat
      reads this
    {
      lengthHigh * TWO_TO_THE_32 + lengthLow
    }

    ghost predicate Shaped()
      reads this
    {
      block.Length == BLOCK_SIZE && index <= BLOCK_SIZE && lengthHigh < TWO_TO_THE_32 && lengthLow < TWO_TO_THE_32
    }

    /** The whole blocks of bytes are hashed and the rest waits in the buffer. */
    ghost predicate Buffered(bytes: seq<Byte>)
      reads this, block
    {
      Shaped() && Gathered(hash, block[..index], bytes)
    }

    ghost predicate Valid()
      reads this, block
    {
      && Shaped()
      && match stage
         case Hashing(bytes) => corrupted == SUCCESS && !computed && Buffered(bytes) && Length() == 8 * |bytes|
         case Finished(m) => corrupted == SUCCESS && computed && hash == Sha1(m)
         case Failed => corrupted != SUCCESS
    }

    constructor (modified: bool)
      ensures Valid() && stage == Hashing([]) && this.modified == modified && fresh(block)
    {
      this.modified := modified;
      block := new Byte[64];
      hash, lengthHigh, lengthLow, index, computed, corrupted := H0, 0, 0, 0, false, SUCCESS;
      stage := Hashing([]);
    }

    method Reset()
      requires Shaped()
      modifies this
      ensures Valid() && stage == Hashing([])
    {
      lengthHigh, lengthLow := 0, 0;
      index := 0;
      hash := H0;
      computed := false;
      corrupted := SUCCESS;
      stage := Hashing([]);
    }

    /** SHA1AddLength: the code is set exactly when the length passes 2^64 bits. */
    method AddLength(length: nat) returns (rc: int)
      requires Shaped() && length < TWO_TO_THE_32
      modifies this`lengthLow, this`lengthHigh, this`corrupted
      ensures Shaped() && rc == corrupted
      ensures var l := old(Length()) + length;
              if l < TWO_TO_THE_64 then Length() == l && corrupted == old(corrupted)
              else Length() == l - TWO_TO_THE_64 && corrupted == INPUT_TOO_LONG
    {
      var addTemp := lengthLow;
      lengthLow := (lengthLow + length) % TWO_TO_THE_32;
      if lengthLow < addTemp {
        lengthHigh := (lengthHigh + 1) % TWO_TO_THE_32;
        if lengthHigh == 0 {
          corrupted := INPUT_TOO_LONG;
        }
      }
      rc := corrupted;
    }

    method ProcessMessageBlock()
      requires Shaped()
      modifies this`hash, this`index
      ensures hash == Compress(old(hash), Words(block[..])) && index == 0
    {
      hash := CompressBlock(modified, hash, block[..]);
      index := 0;
    }

    /** One byte through the buffer index. */
    method PutByte(b: Byte)
      requires Shaped() && index < BLOCK_SIZE
      modifies this`index, block
      ensures Shaped() && index == old(index) + 1 && block[..index] == old(block[..index]) + [b]
    {
      block[index] := b;
      index := index + 1;
      assert block[..index] == old(block[..index]) + [b];
    }

    /** A byte is stored and counted. */
    method StoreByte(b: Byte, ghost bytes: seq<Byte>) returns (rc: int)
      requires Buffered(bytes) && Length() == 8 * |bytes| && |bytes| < LIMIT && corrupted == SUCCESS
      modifies this`index, this`lengthLow, this`lengthHigh, this`corrupted, block
      ensures Shaped() && rc == corrupted && index == |bytes| % 64 + 1 && block[..index] == old(block[..index]) + [b]
      ensures if |bytes| + 1 < LIMIT then rc == SUCCESS && Length() == 8 * (|bytes| + 1)
              else rc == INPUT_TOO_LONG && index == BLOCK_SIZE
    {
      PutByte(b);
      rc := AddLength(8);
    }

    /** One turn of SHA1Input's loop. */
    method Absorb(b: Byte)
      requires Valid() && stage.Hashing? && |stage.absorbed| < LIMIT
      modifies this, block
      ensures if old(|stage.absorbed|) + 1 < LIMIT
              then Valid() && stage == Hashing(old(stage.absorbed) + [b])
              else Valid() && stage == Failed && corrupted == INPUT_TOO_LONG && index == BLOCK_SIZE
      ensures stage.Hashing? ==> index < BLOCK_SIZE
    {
      ghost var bytes, gathered := stage.absorbed, block[..index];
      Gather(hash, gathered, bytes, b);
      var rc := StoreByte(b, bytes);
      if rc == SUCCESS && index == BLOCK_SIZE {
        assert block[..] == block[..index];
        ProcessMessageBlock();
        assert block[..index] == [];
      }
      stage := if |bytes| + 1 < LIMIT then Hashing(bytes + [b]) else Failed;
    }

    lemma BelowLimit()
      requires Valid() && stage.Hashing?
      ensures |stage.absorbed| < LIMIT && corrupted == SUCCESS && !computed
    {}

    /** SHA1Input's loop, up to its end or to the first store outside the buffer. */
    method AbsorbAll(data: seq<Byte>) returns (overrun: bool)
      requires Valid() && stage.Hashing?
      modifies this, block
      ensures Valid()
      ensures overrun <==> old(|stage.absorbed|) + |data| > LIMIT
      ensures if old(|stage.absorbed|) + |data| < LIMIT then stage == Hashing(old(stage.absorbed) + data)
              else stage == Failed && corrupted == INPUT_TOO_LONG && index == BLOCK_SIZE
    {
      ghost var bytes := stage.absorbed;
      BelowLimit();
      assert bytes + data[..0] == bytes;
      var i := 0;
      while i < |data|
        invariant 0 <= i <= |data| && Valid() && |bytes| + i <= LIMIT
        invariant |bytes| + i < LIMIT ==> stage == Hashing(bytes + data[..i]) && index < BLOCK_SIZE
        invariant |bytes| + i == LIMIT ==> stage == Failed && corrupted == INPUT_TOO_LONG && index == BLOCK_SIZE
      {
        if index == BLOCK_SIZE { return true; }
        assert bytes + data[..i] + [data[i]] == bytes + data[..i + 1];
        Absorb(data[i]);
        i := i + 1;
      }
      assert data[..i] == data;
      overrun := false;
    }

    /** SHA1Input. A message may grow to the byte that reaches 2^64 bits, which is refused. The
        code goes on storing bytes after that one, and the next is a store outside the buffer,
        where the model stops: the call stays inside if and only if it ends by the limit. */
    method Input(data: seq<Byte>) returns (rc: int, overrun: bool)
      requires Valid()
      modifies this, block
      ensures Valid()
      ensures overrun <==> old(stage.Hashing?) && old(|stage.absorbed|) + |data| > LIMIT
      ensures data == [] ==> rc == SUCCESS && stage == old(stage) && corrupted == old(corrupted)
      ensures data != [] ==> rc == corrupted
      ensures data != [] && old(stage.Hashing?) ==>
                if old(|stage.absorbed|) + |data| < LIMIT
                then rc == SUCCESS && stage == Hashing(old(stage.absorbed) + data)
                else rc == INPUT_TOO_LONG && stage == Failed && index == BLOCK_SIZE
      ensures data != [] && !old(stage.Hashing?) ==>
                stage == Failed && rc == if old(computed) then STATE_ERROR else old(corrupted)
    {
      if data == [] {
        if stage.Hashing? { BelowLimit(); }
        return SUCCESS, false;
      }
      if computed {
        corrupted := STATE_ERROR;
        stage := Failed;
        return STATE_ERROR, false;
      }
      if corrupted != SUCCESS { return corrupted, false; }
      overrun := AbsorbAll(data);
      rc := corrupted;
    }

    // ---------- the end of a message ----------

    method ZeroFill(limit: nat)
      requires Shaped() && index <= limit <= BLOCK_SIZE
      modifies this`index, block
      ensures Shaped() && index == limit && block[..limit] == old(block[..index]) + ZeroBytes(limit - old(index))
    {
      ghost var start, kept := index, block[..index];
      while index < limit
        invariant Shaped() && start <= index <= limit
        invariant block[..index] == kept + ZeroBytes(index - start)
      {
        assert ZeroBytes(index - start) + [0] == ZeroBytes(index + 1 - start);
        PutByte(0);
      }
    }

    method StoreWord(at: nat, n: nat)
      requires Shaped() && at + 4 <= BLOCK_SIZE
      modifies block
      ensures block[..at] == old(block[..at]) && block[at..at + 4] == LowWord(n)
    {
      block[at] := (n / 0x100_0000 % 256) as bv8;
      block[at + 1] := (n / 0x1_0000 % 256) as bv8;
      block[at + 2] := (n / 0x100 % 256) as bv8;
      block[at + 3] := (n % 256) as bv8;
    }

    method StoreLength()
      requires Shaped()
      modifies block
      ensures block[..] == old(block[..56]) + Octets(Length(), 8)
    {
      ghost var start, high, low := block[..56], LowWord(lengthHigh), LowWord(lengthLow);
      TwoWords(lengthHigh, lengthLow);
      assert Octets(Length(), 8) == high + low;
      StoreWord(56, lengthHigh);
      SplitAt(block[..60], 56);
      assert block[..60] == start + high;
      StoreWord(60, lengthLow);
      SplitAt(block[..], 60);
      assert block[..] == (start + high) + low == start + (high + low);
    }

    /** The rest of a last block: zeros and the length. */
    method LastBlockOut()
      requires Shaped() && index <= BLOCK_SIZE - 8
      modifies this`hash, this`index, block
      ensures Shaped()
      ensures hash == Compress(old(hash), Words(old(block[..index]) + ZeroBytes(56 - old(index)) + Octets(Length(), 8)))
    {
      ZeroFill(BLOCK_SIZE - 8);
      StoreLength();
      ProcessMessageBlock();
    }

    /** The second of two last blocks. */
    method LengthBlockOut()
      requires Shaped() && index == 0
      modifies this`hash, this`index, block
      ensures Shaped()
      ensures hash == Compress(old(hash), Words(LengthBlock(Length())))
    {
      assert block[..index] + ZeroBytes(56) == ZeroBytes(56);
      LastBlockOut();
    }

    /** The first of two last blocks: the end byte and zeros. */
    method FullBlockOut(padByte: Byte)
      requires Shaped() && index < BLOCK_SIZE
      modifies this`hash, this`index, block
      ensures Shaped() && index == 0
      ensures hash == Compress(old(hash), Words(FullBlock(old(block[..index]), padByte)))
    {
      PutByte(padByte);
      ZeroFill(BLOCK_SIZE);
      assert block[..] == block[..64];
      ProcessMessageBlock();
    }

    /** The one last block: the end byte, zeros and the length. */
    method EndBlockOut(padByte: Byte)
      requires Shaped() && index < BLOCK_SIZE - 8
      modifies this`hash, this`index, block
      ensures Shaped()
      ensures hash == Compress(old(hash), Words(EndBlock(old(block[..index]), padByte, Length())))
    {
      PutByte(padByte);
      LastBlockOut();
    }

    method PadOverOne(padByte: Byte, ghost bytes: seq<Byte>)
      requires Buffered(bytes) && index < BLOCK_SIZE - 8
      modifies this`hash, this`index, block
      ensures Shaped()
      ensures |Padded(bytes, padByte, Length())| % 64 == 0 && hash == HashBlocks(Padded(bytes, padByte, Length()))
    {
      ghost var l := Length();
      OneBlock(hash, block[..index], bytes, padByte, l);
      EndBlockOut(padByte);
      assert Length() == l;
    }

    method PadOverTwo(padByte: Byte, ghost bytes: seq<Byte>)
      requires Buffered(bytes) && index >= BLOCK_SIZE - 8
      modifies this`hash, this`index, block
      ensures Shaped()
      ensures |Padded(bytes, padByte, Length())| % 64 == 0 && hash == HashBlocks(Padded(bytes, padByte, Length()))
    {
      ghost var l := Length();
      TwoBlocks(hash, block[..index], bytes, padByte, l);
      FullBlockOut(padByte);
      LengthBlockOut();
      assert Length() == l;
    }

    /** SHA1PadMessage: the blocks it hashes are the padded message, over one block or two. */
    method PadMessage(padByte: Byte, ghost bytes: seq<Byte>)
      requires Buffered(bytes)
      modifies this`hash, this`index, block
      ensures Shaped()
      ensures |Padded(bytes, padByte, Length())| % 64 == 0 && hash == HashBlocks(Padded(bytes, padByte, Length()))
    {
      if index >= BLOCK_SIZE - 8 {
        PadOverTwo(padByte, bytes);
      } else {
        PadOverOne(padByte, bytes);
      }
    }

    method ClearBlock()
      requires Shaped()
      modifies block
      ensures block[..] == ZeroBytes(64)
    {
      for i := 0 to BLOCK_SIZE
        invariant forall j :: 0 <= j < i ==> block[j] == 0
      {
        block[i] := 0;
      }
    }

    method PadAndHash(padByte: Byte, ghost bytes: seq<Byte>, ghost tail: seq<bool>)
      requires Buffered(bytes)
      requires |tail| < 8 && ByteBits(padByte) == tail + [true] + Zeros(7 - |tail|)
      requires Length() == 8 * |bytes| + |tail|
      modifies this`hash, this`index, block
      ensures Shaped() && hash == Sha1(Bits(bytes) + tail)
    {
      PaddedHash(bytes, padByte, tail, Length());
      PadMessage(padByte, bytes);
    }

    /** SHA1Finalize, for a message of bytes and the bits that padByte ends with. */
    method Finalize(padByte: Byte, ghost bytes: seq<Byte>, ghost tail: seq<bool>)
      requires Buffered(bytes) && corrupted == SUCCESS
      requires |tail| < 8 && ByteBits(padByte) == tail + [true] + Zeros(7 - |tail|)
      requires Length() == 8 * |bytes| + |tail|
      modifies this, block
      ensures Valid() && stage == Finished(Bits(bytes) + tail)
      ensures block[..] == ZeroBytes(64) && Length() == 0
    {
      PadAndHash(padByte, bytes, tail);
      ClearBlock();
      lengthHigh := 0;
      lengthLow := 0;
      computed := true;
      stage := Finished(Bits(bytes) + tail);
    }

    /** SHA1FinalBits on a message under way. */
    method FinishWith(messageBits: Byte, length: nat)
      requires Valid() && stage.Hashing? && length < 8
      modifies this, block
      ensures Valid() && stage == Finished(Bits(old(stage.absorbed)) + LastBits(messageBits, length))
    {
      ghost var bytes := stage.absorbed;
      BelowLimit();
      EndByteSpells(messageBits, length);
      var _ := AddLength(length);
      Finalize(EndByte(messageBits, length), bytes, LastBits(messageBits, length));
    }

    /** SHA1FinalBits: the last few bits of a message; they can never make it too long. */
    method FinalBits(messageBits: Byte, length: nat) returns (rc: int)
      requires Valid()
      modifies this, block
      ensures Valid()
      ensures length == 0 ==> rc == SUCCESS && stage == old(stage) && corrupted == old(corrupted)
      ensures length > 0 ==> rc == corrupted
      ensures old(stage.Hashing?) && 0 < length < 8 ==>
                rc == SUCCESS && stage == Finished(Bits(old(stage.absorbed)) + LastBits(messageBits, length))
      ensures length > 0 && !(old(stage.Hashing?) && length < 8) ==>
                stage == Failed
                && rc == (if old(stage.Failed?) then old(corrupted)
                          else if old(computed) then STATE_ERROR else BAD_PARAM)
    {
      if length == 0 { return SUCCESS; }
      if corrupted != SUCCESS { return corrupted; }
      if computed {
        corrupted := STATE_ERROR;
        stage := Failed;
        return STATE_ERROR;
      }
      if length >= 8 {
        corrupted := BAD_PARAM;
        stage := Failed;
        return BAD_PARAM;
      }
      FinishWith(messageBits, length);
      rc := corrupted;
    }

    /** SHA1Result's loop: the words of the hash byte by byte, most significant bit first. */
    method DigestOut() returns (digest: seq<Byte>)
      ensures |digest| == 20 && digest == Digest(hash) && Bits(digest) == HashBits(hash)
    {
      digest := [];
      for i := 0 to 20
        invariant digest == Digest(hash)[..i]
      {
        digest := digest + [Octet(WordIn(hash, i / 4), i % 4)];
      }
      assert Digest(hash)[..20] == Digest(hash);
      DigestBits(hash);
    }

    /** SHA1Result: the digest of the message, however often it is asked for. */
    method Result() returns (rc: int, digest: seq<Byte>)
      requires Valid()
      modifies this, block
      ensures Valid() && rc == corrupted == old(corrupted)
      ensures old(stage.Hashing?) ==> stage == Finished(Bits(old(stage.absorbed)))
      ensures !old(stage.Hashing?) ==> stage == old(stage)
      ensures stage.Finished? ==> rc == SUCCESS && digest == Digest(Sha1(stage.message))
      ensures stage.Finished? ==> |digest| == 20 && Bits(digest) == HashBits(Sha1(stage.message))
    {
      digest := [];
      if corrupted != SUCCESS { return corrupted, digest; }
      if !computed {
        MarkSpells();
        assert Bits(stage.absorbed) + [] == Bits(stage.absorbed);
        Finalize(0x80, stage.absorbed, []);
      }
      digest := DigestOut();
      rc := SUCCESS;
    }

    // ---------- the Scheme interface ----------

    /** osi_hash_data: None is the EINVAL for a range outside the bytevector. */
    method HashData(bv: seq<Byte>, start: nat, size: nat) returns (rc: Option<int>, overrun: bool)
      requires Valid()
      requires start < TWO_TO_THE_64 && size < TWO_TO_THE_32 && |bv| < TWO_TO_THE_64
      modifies this, block
      ensures Valid()
      ensures rc == None <==> start + size > |bv|
      ensures overrun <==> rc != None && old(stage.Hashing?) && old(|stage.absorbed|) + size > LIMIT
      ensures rc == None || size == 0 ==> stage == old(stage) && corrupted == old(corrupted)
      ensures rc != None && old(stage.Hashing?) ==>
                if old(|stage.absorbed|) + size < LIMIT
                then rc == Some(SUCCESS) && stage == Hashing(old(stage.absorbed) + bv[start..start + size])
                else rc == Some(INPUT_TOO_LONG) && stage == Failed
      ensures rc != None && size > 0 && !old(stage.Hashing?) ==>
                stage == Failed && rc == Some(if old(computed) then STATE_ERROR else old(corrupted))
    {
      var last := (start + size) % TWO_TO_THE_64;
      if last < start || last > |bv| { return None, false; }
      if size == 0 {
        if stage.Hashing? { BelowLimit(); }
        assert stage.Hashing? ==> stage.absorbed + bv[start..start + size] == stage.absorbed;
        return Some(SUCCESS), false;
      }
      var r;
      r, overrun := Input(bv[start..start + size]);
      rc := Some(r);
    }

    /** osi_get_SHA1: the digest, and a context as good as new. */
    method GetSHA1() returns (rc: int, digest: seq<Byte>)
      requires Valid()
      modifies this, block
      ensures Valid() && rc == old(corrupted)
      ensures old(stage.Hashing?) ==> digest == Digest(Sha1(Bits(old(stage.absorbed))))
      ensures old(stage.Finished?) ==> digest == Digest(Sha1(old(stage.message)))
      ensures old(stage.Hashing?) ==> Bits(digest) == HashBits(Sha1(Bits(old(stage.absorbed))))
      ensures old(stage.Finished?) ==> Bits(digest) == HashBits(Sha1(old(stage.message)))
      ensures rc == SUCCESS ==> stage == Hashing([])
      ensures rc != SUCCESS ==> stage == Failed
    {
      rc, digest := Result();
      if rc != SUCCESS { return; }
      Reset();
    }
  }

  function Joined(chunks: seq<seq<Byte>>): seq<Byte> {
    if chunks == [] then [] else Joined(chunks[..|chunks| - 1]) + chunks[|chunks| - 1]
  }

  lemma {:induction false} JoinedPrefix(chunks: seq<seq<Byte>>, i: nat)
    requires i <= |chunks|
    ensures |Joined(chunks[..i])| <= |Joined(chunks)|
  {
    if i < |chunks| {
      JoinedPrefix(chunks[..|chunks| - 1], i);
      assert chunks[..|chunks| - 1][..i] == chunks[..i];
    } else {
      assert chunks[..i] == chunks;
    }
  }

  /** However a message is cut up, with either form of the macros, reset, inputs and a result
      give its SHA-1, and asking again gives it again. */
  method DigestOfChunks(modified: bool, chunks: seq<seq<Byte>>) returns (digest: seq<Byte>, again: seq<Byte>)
    requires |Joined(chunks)| < LIMIT
    ensures digest == again && |digest| == 20 && Bits(digest) == HashBits(Sha1(Bits(Joined(chunks))))
  {
    var context := new SHA1Context(modified);
    for i := 0 to |chunks|
      invariant context.Valid() && context.stage == Hashing(Joined(chunks[..i]))
      invariant fresh(context) && fresh(context.block)
    {
      assert chunks[..i + 1][..i] == chunks[..i];
      JoinedPrefix(chunks, i + 1);
      assert chunks[i] == [] ==> Joined(chunks[..i + 1]) == Joined(chunks[..i]);
      var _, _ := context.Input(chunks[i]);
    }
    assert chunks[..|chunks|] == chunks;
    var rc;
    rc, digest := context.Result();
    rc, again := context.Result();
  }
}
