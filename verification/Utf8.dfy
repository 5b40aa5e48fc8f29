/**
 `osi_string_to_utf8`: a counting pass and a writing pass over a Scheme string.
 The encoding is specified per character (section 3 of RFC 3629), and the byte
 strings it produces are exactly those of the grammar in section 4 of RFC 3629.
 */
module Utf8 {
  import opened Options

  type Byte = bv8

  /** A Scheme character: a Unicode scalar value, so never a surrogate. */
  predicate Scalar(c: bv32) {
    c < 0xD800 || 0xE000 <= c < 0x110000
  }

  predicate Scalars(s: seq<bv32>) {
    forall i :: 0 <= i < |s| ==> Scalar(s[i])
  }

  // ---------- one character ----------

  /** What the counting pass adds for c. */
  function CharLength(c: bv32): nat {
    if c < 0x80 then 1 else if c < 0x800 then 2 else if c < 0x10000 then 3 else 4
  }

  function Lead2(c: bv32): Byte requires c < 0x800 { ((c >> 6) | 0xC0) as bv8 }
  function Lead3(c: bv32): Byte requires c < 0x10000 { ((c >> 12) | 0xE0) as bv8 }
  function Lead4(c: bv32): Byte requires c < 0x110000 { ((c >> 18) | 0xF0) as bv8 }
  function Trail(c: bv32): Byte { ((c & 0x3F) | 0x80) as bv8 }

  function EncodeChar(c: bv32): seq<Byte>
    requires c < 0x110000
  {
    if c < 0x80 then [c as bv8]
    else if c < 0x800 then [Lead2(c), Trail(c)]
    else if c < 0x10000 then [Lead3(c), Trail(c >> 6), Trail(c)]
    else [Lead4(c), Trail(c >> 12), Trail(c >> 6), Trail(c)]
  }

  /** UTF8-tail and the lead-byte ranges of the grammar. */
  predicate Tail(b: Byte) { 0x80 <= b <= 0xBF }
  predicate Two(a: Byte, b: Byte) { 0xC2 <= a <= 0xDF && Tail(b) }
  predicate Three(a: Byte, b: Byte, c: Byte) {
    && Tail(c)
    && ((a == 0xE0 && 0xA0 <= b <= 0xBF) || (0xE1 <= a <= 0xEC && Tail(b))
        || (a == 0xED && 0x80 <= b <= 0x9F) || (0xEE <= a <= 0xEF && Tail(b)))
  }

  predicate Four(a: Byte, b: Byte, c: Byte, d: Byte) {
    && Tail(c) && Tail(d)
    && ((a == 0xF0 && 0x90 <= b <= 0xBF) || (0xF1 <= a <= 0xF3 && Tail(b)) || (a == 0xF4 && 0x80 <= b <= 0x8F))
  }

  /** The length of the UTF8-char that starts bs, 0 when none does. */
  function LeadLength(bs: seq<Byte>): nat {
    if |bs| >= 1 && bs[0] <= 0x7F then 1
    else if |bs| >= 2 && Two(bs[0], bs[1]) then 2
    else if |bs| >= 3 && Three(bs[0], bs[1], bs[2]) then 3
    else if |bs| >= 4 && Four(bs[0], bs[1], bs[2], bs[3]) then 4
    else 0
  }

  function Join2(a: Byte, b: Byte): bv32 {
    ((a & 0x1F) as bv32 << 6) | (b & 0x3F) as bv32
  }

  function Join3(a: Byte, b: Byte, c: Byte): bv32 {
    ((a & 0x0F) as bv32 << 12) | ((b & 0x3F) as bv32 << 6) | (c & 0x3F) as bv32
  }

  function Join4(a: Byte, b: Byte, c: Byte, d: Byte): bv32 {
    ((a & 0x07) as bv32 << 18) | ((b & 0x3F) as bv32 << 12) | ((c & 0x3F) as bv32 << 6) | (d & 0x3F) as bv32
  }

  function DecodeChar(bs: seq<Byte>): bv32
    requires LeadLength(bs) > 0
  {
    match LeadLength(bs)
    case 1 => bs[0] as bv32
    case 2 => Join2(bs[0], bs[1])
    case 3 => Join3(bs[0], bs[1], bs[2])
    case _ => Join4(bs[0], bs[1], bs[2], bs[3])
  }

  lemma Split1(c: bv32)
    requires c < 0x80
    ensures c as bv8 <= 0x7F && (c as bv8) as bv32 == c
  {}

  lemma Split2(c: bv32)
    requires 0x80 <= c < 0x800
    ensures Two(Lead2(c), Trail(c)) && Lead2(c) > 0x7F && Join2(Lead2(c), Trail(c)) == c
  {}

  lemma Split3(c: bv32)
    requires 0x800 <= c < 0x10000 && Scalar(c)
    ensures Three(Lead3(c), Trail(c >> 6), Trail(c)) && Lead3(c) > 0xDF
  {}

  lemma Payload(c: bv32)
    ensures (Trail(c) & 0x3F) as bv32 == c & 0x3F
    ensures c < 0x10000 ==> (Lead3(c) & 0x0F) as bv32 == c >> 12
    ensures c < 0x110000 ==> (Lead4(c) & 0x07) as bv32 == c >> 18
  {}

  lemma Reassemble(c: bv32)
    ensures (c >> 12 << 12) | (((c >> 6) & 0x3F) << 6) | (c & 0x3F) == c
    ensures (c >> 18 << 18) | (((c >> 12) & 0x3F) << 12) | (((c >> 6) & 0x3F) << 6) | (c & 0x3F) == c
  {}

  lemma Rejoin3(c: bv32)
    requires 0x800 <= c < 0x10000
    ensures Join3(Lead3(c), Trail(c >> 6), Trail(c)) == c
  {
    Payload(c); Payload(c >> 6); Reassemble(c);
  }

  lemma Split4(c: bv32)
    requires 0x10000 <= c < 0x110000
    ensures Four(Lead4(c), Trail(c >> 12), Trail(c >> 6), Trail(c)) && Lead4(c) > 0xEF
  {}

  lemma Rejoin4(c: bv32)
    requires 0x10000 <= c < 0x110000
    ensures Join4(Lead4(c), Trail(c >> 12), Trail(c >> 6), Trail(c)) == c
  {
    Payload(c); Payload(c >> 6); Payload(c >> 12); Reassemble(c);
  }

  lemma Joined1(a: Byte)
    requires a <= 0x7F
    ensures var c := a as bv32; c < 0x80 && c as bv8 == a
  {}

  lemma Joined2(a: Byte, b: Byte)
    requires Two(a, b)
    ensures var c := Join2(a, b); 0x80 <= c < 0x800 && Lead2(c) == a && Trail(c) == b
  {}

  lemma Joined3(a: Byte, b: Byte, d: Byte)
    requires Three(a, b, d)
    ensures var c := Join3(a, b, d);
            0x800 <= c < 0x10000 && Scalar(c) && Lead3(c) == a && Trail(c >> 6) == b && Trail(c) == d
  {}

  lemma Joined4(a: Byte, b: Byte, d: Byte, e: Byte)
    requires Four(a, b, d, e)
    ensures var c := Join4(a, b, d, e);
            0x10000 <= c < 0x110000 && Lead4(c) == a && Trail(c >> 12) == b && Trail(c >> 6) == d && Trail(c) == e
  {}

  /** Decoding inverts encoding, whatever bytes follow. */
  lemma CharRoundTrip(c: bv32, rest: seq<Byte>)
    requires Scalar(c)
    ensures var bs := EncodeChar(c) + rest;
            |EncodeChar(c)| == LeadLength(bs) == CharLength(c) && DecodeChar(bs) == c
  {
    if c < 0x80 { Split1(c); }
    else if c < 0x800 { Split2(c); }
    else if c < 0x10000 { Split3(c); Rejoin3(c); }
    else { Split4(c); Rejoin4(c); }
  }

  lemma Decoded1(a: Byte)
    requires a <= 0x7F
    ensures Scalar(a as bv32) && EncodeChar(a as bv32) == [a]
  {
    Joined1(a);
  }

  lemma Decoded2(a: Byte, b: Byte)
    requires Two(a, b)
    ensures var c := Join2(a, b); Scalar(c) && EncodeChar(c) == [a, b]
  {
    Joined2(a, b);
  }

  lemma Decoded3(a: Byte, b: Byte, d: Byte)
    requires Three(a, b, d)
    ensures var c := Join3(a, b, d); Scalar(c) && EncodeChar(c) == [a, b, d]
  {
    Joined3(a, b, d);
  }

  lemma Decoded4(a: Byte, b: Byte, d: Byte, e: Byte)
    requires Four(a, b, d, e)
    ensures var c := Join4(a, b, d, e); Scalar(c) && EncodeChar(c) == [a, b, d, e]
  {
    Joined4(a, b, d, e);
  }

  /** Encoding inverts decoding on the grammar. */
  lemma CharDecoded(bs: seq<Byte>)
    requires LeadLength(bs) > 0
    ensures Scalar(DecodeChar(bs)) && EncodeChar(DecodeChar(bs)) == bs[..LeadLength(bs)]
  {
    match LeadLength(bs)
    case 1 => Decoded1(bs[0]);
    case 2 => Decoded2(bs[0], bs[1]);
    case 3 => Decoded3(bs[0], bs[1], bs[2]);
    case _ => Decoded4(bs[0], bs[1], bs[2], bs[3]);
  }

  // ---------- the number that a code stands for ----------

  function Number2(a: Byte, b: Byte): bv32 {
    (a as bv32 - 0xC0) * 0x40 + (b as bv32 - 0x80)
  }

  function Number3(a: Byte, b: Byte, d: Byte): bv32 {
    (a as bv32 - 0xE0) * 0x1000 + (b as bv32 - 0x80) * 0x40 + (d as bv32 - 0x80)
  }

  function Number4(a: Byte, b: Byte, d: Byte, e: Byte): bv32 {
    (a as bv32 - 0xF0) * 0x4_0000 + (b as bv32 - 0x80) * 0x1000 + (d as bv32 - 0x80) * 0x40 + (e as bv32 - 0x80)
  }

  /** The number that bytes stand for by the table of section 3 of RFC 3629. */
  predicate StandsFor(bs: seq<Byte>, c: bv32) {
    if c < 0x80 then |bs| == 1 && bs[0] as bv32 == c
    else if c < 0x800 then |bs| == 2 && Number2(bs[0], bs[1]) == c
    else if c < 0x10000 then |bs| == 3 && Number3(bs[0], bs[1], bs[2]) == c
    else |bs| == 4 && Number4(bs[0], bs[1], bs[2], bs[3]) == c
  }

  lemma Value1(c: bv32)
    requires c < 0x80
    ensures (c as bv8) as bv32 == c
  {}

  lemma Value2(c: bv32)
    requires 0x80 <= c < 0x800
    ensures Number2(Lead2(c), Trail(c)) == c
  {}

  lemma Value3(c: bv32)
    requires 0x800 <= c < 0x10000
    ensures Number3(Lead3(c), Trail(c >> 6), Trail(c)) == c
  {}

  lemma Value4(c: bv32)
    requires 0x10000 <= c < 0x110000
    ensures Number4(Lead4(c), Trail(c >> 12), Trail(c >> 6), Trail(c)) == c
  {}

  /** The code of a character stands for that character. */
  lemma CodeStands(c: bv32)
    requires Scalar(c)
    ensures StandsFor(EncodeChar(c), c)
  {
    if c < 0x80 { Value1(c); }
    else if c < 0x800 { Value2(c); }
    else if c < 0x10000 { Value3(c); }
    else { Value4(c); }
  }

  // ---------- strings ----------

  function Encode(s: seq<bv32>): seq<Byte>
    requires Scalars(s)
  {
    if s == [] then [] else EncodeChar(s[0]) + Encode(s[1..])
  }

  /** The strict decoder of the grammar: None unless bs is a sequence of UTF8-chars. */
  function Decode(bs: seq<Byte>): Option<seq<bv32>> {
    if bs == [] then Some([])
    else if LeadLength(bs) == 0 then None
    else
      var rest := Decode(bs[LeadLength(bs)..]);
      if rest.None? then None else Some([DecodeChar(bs)] + rest.value)
  }

  lemma {:induction false} RoundTrip(s: seq<bv32>)
    requires Scalars(s)
    ensures Decode(Encode(s)) == Some(s)
  {
    if s != [] {
      CharRoundTrip(s[0], Encode(s[1..]));
      assert Encode(s)[LeadLength(Encode(s))..] == Encode(s[1..]);
      RoundTrip(s[1..]);
      assert [s[0]] + s[1..] == s;
    }
  }

  lemma {:induction false} DecodedOnly(bs: seq<Byte>)
    requires Decode(bs).Some?
    ensures Scalars(Decode(bs).value) && Encode(Decode(bs).value) == bs
  {
    if bs != [] {
      var n, s := LeadLength(bs), Decode(bs).value;
      DecodedOnly(bs[n..]);
      assert s[1..] == Decode(bs[n..]).value;
      CharDecoded(bs);
      assert bs == bs[..n] + bs[n..];
    }
  }

  /** The encoder is a bijection between strings of scalar values and the byte strings of the grammar. */
  lemma {:induction false} EncodesExactly(s: seq<bv32>, bs: seq<Byte>)
    ensures (Scalars(s) && Encode(s) == bs) <==> Decode(bs) == Some(s)
  {
    if Scalars(s) { RoundTrip(s); }
    if Decode(bs).Some? { DecodedOnly(bs); }
  }

  /** A code at the start of bs is what decoding bs finds first. */
  lemma FoundFirst(c: bv32, code: seq<Byte>, bs: seq<Byte>)
    requires Scalar(c) && code == EncodeChar(c) && code <= bs
    ensures LeadLength(bs) > 0 && DecodeChar(bs) == c
  {
    CharRoundTrip(c, bs[|code|..]);
    assert bs == code + bs[|code|..];
  }

  /** No character's code is a prefix of another's. */
  lemma {:induction false} PrefixFree(c: bv32, d: bv32)
    requires Scalar(c) && Scalar(d) && EncodeChar(c) <= EncodeChar(d)
    ensures c == d
  {
    var code := EncodeChar(d);
    FoundFirst(c, EncodeChar(c), code);
    FoundFirst(d, code, code);
  }

  lemma {:induction false} EncodeAppend(s: seq<bv32>, t: seq<bv32>)
    requires Scalars(s) && Scalars(t)
    ensures Scalars(s + t) && Encode(s + t) == Encode(s) + Encode(t)
  {
    if s == [] {
      assert s + t == t;
    } else {
      assert (s + t)[1..] == s[1..] + t;
      EncodeAppend(s[1..], t);
    }
  }

  lemma EncodeNext(s: seq<bv32>, i: nat)
    requires Scalars(s) && i < |s|
    ensures Scalars(s[..i]) && Scalars(s[..i + 1])
    ensures Encode(s[..i + 1]) == Encode(s[..i]) + EncodeChar(s[i])
    ensures |EncodeChar(s[i])| == CharLength(s[i])
    ensures |Encode(s[..i + 1])| <= |Encode(s)|
  {
    assert s[..i + 1] == s[..i] + [s[i]];
    EncodeAppend(s[..i], [s[i]]);
    assert Encode([s[i]]) == EncodeChar(s[i]) + Encode([s[i]][1..]);
    EncodeAppend(s[..i + 1], s[i + 1..]);
    assert s == s[..i + 1] + s[i + 1..];
    CharRoundTrip(s[i], []);
  }

  /** The body of the writing pass: c is stored through the moving pointer k. */
  method PutChar(buffer: array<Byte>, k: nat, c: bv32) returns (next: nat)
    requires c < 0x110000 && k + |EncodeChar(c)| <= buffer.Length
    modifies buffer
    ensures next == k + |EncodeChar(c)|
    ensures buffer[..next] == old(buffer[..k]) + EncodeChar(c)
    ensures buffer[next..] == old(buffer[next..])
  {
    if c < 0x80 {
      buffer[k] := c as bv8;
      next := k + 1;
    } else if c < 0x800 {
      buffer[k] := ((c >> 6) | 0xC0) as bv8;
      buffer[k + 1] := ((c & 0x3F) | 0x80) as bv8;
      next := k + 2;
    } else if c < 0x10000 {
      buffer[k] := ((c >> 12) | 0xE0) as bv8;
      buffer[k + 1] := (((c >> 6) & 0x3F) | 0x80) as bv8;
      buffer[k + 2] := ((c & 0x3F) | 0x80) as bv8;
      next := k + 3;
    } else {
      buffer[k] := ((c >> 18) | 0xF0) as bv8;
      buffer[k + 1] := (((c >> 12) & 0x3F) | 0x80) as bv8;
      buffer[k + 2] := (((c >> 6) & 0x3F) | 0x80) as bv8;
      buffer[k + 3] := ((c & 0x3F) | 0x80) as bv8;
      next := k + 4;
    }
  }

  function EncodedLength(s: seq<bv32>): nat {
    if s == [] then 0 else EncodedLength(s[..|s| - 1]) + CharLength(s[|s| - 1])
  }

  lemma {:induction false} LengthCounted(s: seq<bv32>)
    requires Scalars(s)
    ensures EncodedLength(s) == |Encode(s)|
  {
    if s != [] {
      LengthCounted(s[..|s| - 1]);
      EncodeNext(s, |s| - 1);
      assert s[..|s| - 1 + 1] == s;
    }
  }

  lemma LengthStep(s: seq<bv32>, i: nat)
    requires i < |s|
    ensures EncodedLength(s[..i + 1]) == EncodedLength(s[..i]) + CharLength(s[i])
  {
    assert s[..i + 1][..i] == s[..i];
  }

  /** The counting pass. */
  method CountUtf8(s: seq<bv32>) returns (len: nat)
    ensures len == EncodedLength(s)
  {
    len := 0;
    for i := 0 to |s|
      invariant len == EncodedLength(s[..i])
    {
      LengthStep(s, i);
      len := len + CharLength(s[i]);
    }
    assert s[..|s|] == s;
  }

  /** The writing pass: it fills exactly the room that was counted. */
  method WriteUtf8(s: seq<bv32>, buffer: array<Byte>) returns (k: nat)
    requires Scalars(s) && |Encode(s)| <= buffer.Length
    modifies buffer
    ensures k == |Encode(s)| && buffer[..k] == Encode(s)
  {
    k := 0;
    for i := 0 to |s|
      invariant k <= buffer.Length && buffer[..k] == Encode(s[..i])
    {
      EncodeNext(s, i);
      k := PutChar(buffer, k, s[i]);
    }
    assert s[..|s|] == s;
  }

  /** The result of the encoder: no buffer when malloc fails, otherwise the code of s
      and a nul that the length does not count. */
  method StringToUtf8(s: seq<bv32>, mallocOk: bool) returns (result: array?<Byte>, utf8Len: nat)
    requires Scalars(s)
    ensures result == null <==> !mallocOk
    ensures result == null ==> utf8Len == 0
    ensures result != null ==>
              fresh(result) && utf8Len == |Encode(s)| && result[..] == Encode(s) + [0]
  {
    utf8Len := CountUtf8(s);
    LengthCounted(s);
    if !mallocOk {
      return null, 0;
    }
    result := new Byte[utf8Len + 1];
    var k := WriteUtf8(s, result);
    result[k] := 0;
  }
}
