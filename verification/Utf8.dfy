/** The UTF-8 encoding that byte lengths and character boundaries are about. */
module Utf8 {
  import opened Truncation

  type Byte = x: int | 0 <= x < 256

  /** The encoding of one scalar value. */
  function Encode(c: char): seq<Byte> {
    var n := c as int;
    if n < 0x80 then [n]
    else if n < 0x800 then [0xC0 + n / 0x40, 0x80 + n % 0x40]
    else if n < 0x1_0000 then [0xE0 + n / 0x1000, 0x80 + n / 0x40 % 0x40, 0x80 + n % 0x40]
    else [0xF0 + n / 0x4_0000, 0x80 + n / 0x1000 % 0x40, 0x80 + n / 0x40 % 0x40, 0x80 + n % 0x40]
  }

  predicate Continuation(b: Byte) {
    0x80 <= b < 0xC0
  }

  /** Only the bytes behind the first continue a character. */
  lemma EncodeShape(c: char)
    ensures |Encode(c)| == Width(c) && !Continuation(Encode(c)[0])
    ensures forall i :: 0 < i < |Encode(c)| ==> Continuation(Encode(c)[i])
  {
  }

  function Encoded(s: string): seq<Byte> {
    if |s| == 0 then [] else Encode(s[0]) + Encoded(s[1..])
  }

  lemma {:induction false} EncodedLength(s: string)
    ensures |Encoded(s)| == ByteLen(s)
    decreases |s|
  {
    if |s| > 0 {
      EncodeShape(s[0]);
      EncodedLength(s[1..]);
    }
  }

  /** `is_char_boundary`: the end, or a byte that continues no character. */
  lemma {:induction false} BoundaryIff(s: string, b: nat)
    ensures IsCharBoundary(s, b) <==>
      b <= |Encoded(s)| && (b == |Encoded(s)| || !Continuation(Encoded(s)[b]))
    decreases |s|
  {
    if |s| > 0 {
      EncodeShape(s[0]);
      EncodedLength(s);
      if b >= Width(s[0]) {
        BoundaryIff(s[1..], b - Width(s[0]));
      }
      BytesOfTwo(Encode(s[0]), Encoded(s[1..]), b);
    }
  }

  lemma BytesOfTwo(a: seq<Byte>, rest: seq<Byte>, b: nat)
    ensures b < |a| ==> (a + rest)[b] == a[b]
    ensures |a| <= b < |a + rest| ==> (a + rest)[b] == rest[b - |a|]
  {
  }

  /** The prefix up to a boundary has the bytes up to there. */
  lemma {:induction false} PrefixBytes(s: string, b: nat)
    requires IsCharBoundary(s, b)
    ensures b <= |Encoded(s)| && Encoded(BytePrefix(s, b)) == Encoded(s)[..b]
    decreases |s|
  {
    if b > 0 {
      var rest := BytePrefix(s[1..], b - Width(s[0]));
      EncodeShape(s[0]);
      PrefixBytes(s[1..], b - Width(s[0]));
      assert ([s[0]] + rest)[1..] == rest;
    }
  }
}
