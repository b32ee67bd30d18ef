/**
 * Base64 as defined in section 4 of RFC 4648 (standard alphabet, `=` padding),
 * which is what Node's `Buffer.toString('base64')` produces.  The encoder models
 * that call; the strict decoder is its reference partner, and the two are proved
 * to be inverse to each other in both directions.
 */
module Base64 {
  import opened Wrappers

  /** One byte of a Node `Buffer`. */
  type uint8 = x: int | 0 <= x < 256

  /** A 6-bit group, the index of one character of the alphabet. */
  type sextet = x: int | 0 <= x < 64

  const Pad: char := '='

  /** The character for a 6-bit value (Table 1 of RFC 4648). */
  function Char(v: sextet): char
  {
    if v < 26 then (65 + v) as char          // 'A'..'Z'
    else if v < 52 then (97 + v - 26) as char  // 'a'..'z'
    else if v < 62 then (48 + v - 52) as char  // '0'..'9'
    else if v == 62 then '+'
    else '/'
  }

  predicate IsAlphabetChar(c: char)
  {
    'A' <= c <= 'Z' || 'a' <= c <= 'z' || '0' <= c <= '9' || c == '+' || c == '/'
  }

  /** The 6-bit value of an alphabet character: the inverse of Char. */
  function Value(c: char): (v: sextet)
    requires IsAlphabetChar(c)
    ensures Char(v) == c
  {
    if 'A' <= c <= 'Z' then c as int - 65
    else if 'a' <= c <= 'z' then c as int - 97 + 26
    else if '0' <= c <= '9' then c as int - 48 + 52
    else if c == '+' then 62
    else 63
  }

  lemma ValueOfChar(v: sextet)
    ensures IsAlphabetChar(Char(v)) && Value(Char(v)) == v
  {
  }

  /** Three bytes become four characters. */
  function EncodeTriple(a: uint8, b: uint8, c: uint8): string
  {
    [Char(a / 4), Char((a % 4) * 16 + b / 16), Char((b % 16) * 4 + c / 64), Char(c % 64)]
  }

  /** A final group of two bytes: three characters and one pad. */
  function EncodePair(a: uint8, b: uint8): string
  {
    [Char(a / 4), Char((a % 4) * 16 + b / 16), Char((b % 16) * 4), Pad]
  }

  /** A final single byte: two characters and two pads. */
  function EncodeSingle(a: uint8): string
  {
    [Char(a / 4), Char((a % 4) * 16), Pad, Pad]
  }

  /** Base64 text of `data`: four characters per started group of three bytes. */
  function Encode(data: seq<uint8>): (s: string)
    ensures |s| == 4 * ((|data| + 2) / 3)
    ensures forall k :: 0 <= k < |s| ==> IsAlphabetChar(s[k]) || s[k] == Pad
  {
    if |data| == 0 then []
    else if |data| == 1 then EncodeSingle(data[0])
    else if |data| == 2 then EncodePair(data[0], data[1])
    else EncodeTriple(data[0], data[1], data[2]) + Encode(data[3..])
  }

  predicate IsFullQuad(q: string)
    requires |q| == 4
  {
    IsAlphabetChar(q[0]) && IsAlphabetChar(q[1]) && IsAlphabetChar(q[2]) && IsAlphabetChar(q[3])
  }

  /** The three bytes packed in four alphabet characters. */
  function DecodeFullQuad(q: string): (r: seq<uint8>)
    requires |q| == 4 && IsFullQuad(q)
    ensures |r| == 3
  {
    var v0, v1, v2, v3 := Value(q[0]), Value(q[1]), Value(q[2]), Value(q[3]);
    [v0 * 4 + v1 / 16, (v1 % 16) * 16 + v2 / 4, (v2 % 4) * 64 + v3]
  }

  /**
   * The last group of the text, which may carry one or two pads.  The bits a pad
   * leaves unused must be zero, so that every accepted text is the encoding of
   * exactly one byte string.
   */
  function DecodeFinalQuad(q: string): (r: Option<seq<uint8>>)
    requires |q| == 4
  {
    if IsFullQuad(q) then Some(DecodeFullQuad(q))
    else if IsAlphabetChar(q[0]) && IsAlphabetChar(q[1]) && IsAlphabetChar(q[2]) && q[3] == Pad
         && Value(q[2]) % 4 == 0 then
      Some([Value(q[0]) * 4 + Value(q[1]) / 16, (Value(q[1]) % 16) * 16 + Value(q[2]) / 4])
    else if IsAlphabetChar(q[0]) && IsAlphabetChar(q[1]) && q[2] == Pad && q[3] == Pad
         && Value(q[1]) % 16 == 0 then
      Some([Value(q[0]) * 4 + Value(q[1]) / 16])
    else None
  }

  /** Strict decoding: None for any text that is not a canonical encoding. */
  function Decode(s: string): (r: Option<seq<uint8>>)
    decreases |s|
  {
    if |s| == 0 then Some([])
    else if |s| < 4 then None
    else if |s| == 4 then DecodeFinalQuad(s)
    else if !IsFullQuad(s[..4]) then None
    else match Decode(s[4..])
      case None => None
      case Some(rest) => Some(DecodeFullQuad(s[..4]) + rest)
  }

  /** The bit arithmetic behind one full group, on the 6-bit values. */
  lemma TripleArithmetic(a: uint8, b: uint8, c: uint8)
    ensures var v1, v2 := (a % 4) * 16 + b / 16, (b % 16) * 4 + c / 64;
      (a / 4) * 4 + v1 / 16 == a && (v1 % 16) * 16 + v2 / 4 == b && (v2 % 4) * 64 + c % 64 == c
  {
    var v1, v2 := (a % 4) * 16 + b / 16, (b % 16) * 4 + c / 64;
    assert v1 / 16 == a % 4 && v1 % 16 == b / 16;
    assert v2 / 4 == b % 16 && v2 % 4 == c / 64;
  }

  lemma TripleRoundTrip(a: uint8, b: uint8, c: uint8)
    ensures IsFullQuad(EncodeTriple(a, b, c))
    ensures DecodeFullQuad(EncodeTriple(a, b, c)) == [a, b, c]
  {
    var v0, v1, v2, v3 := a / 4, (a % 4) * 16 + b / 16, (b % 16) * 4 + c / 64, c % 64;
    ValueOfChar(v0);
    ValueOfChar(v1);
    ValueOfChar(v2);
    ValueOfChar(v3);
    TripleArithmetic(a, b, c);
    var q := EncodeTriple(a, b, c);
    assert q == [Char(v0), Char(v1), Char(v2), Char(v3)];
    assert Value(q[0]) == v0 && Value(q[1]) == v1 && Value(q[2]) == v2 && Value(q[3]) == v3;
  }

  lemma PairRoundTrip(a: uint8, b: uint8)
    ensures DecodeFinalQuad(EncodePair(a, b)) == Some([a, b])
  {
    var v0, v1, v2 := a / 4, (a % 4) * 16 + b / 16, (b % 16) * 4;
    ValueOfChar(v0);
    ValueOfChar(v1);
    ValueOfChar(v2);
    TripleArithmetic(a, b, 0);
    var q := EncodePair(a, b);
    assert Value(q[0]) == v0 && Value(q[1]) == v1 && Value(q[2]) == v2 && q[3] == Pad;
  }

  lemma SingleRoundTrip(a: uint8)
    ensures DecodeFinalQuad(EncodeSingle(a)) == Some([a])
  {
    var v0, v1 := a / 4, (a % 4) * 16;
    ValueOfChar(v0);
    ValueOfChar(v1);
    TripleArithmetic(a, 0, 0);
    var q := EncodeSingle(a);
    assert Value(q[0]) == v0 && Value(q[1]) == v1 && q[2] == Pad && q[3] == Pad;
  }

  /** Decoding a full group followed by more text. */
  lemma DecodeFullQuadThen(q: string, tail: string)
    requires |q| == 4 && IsFullQuad(q) && tail != []
    ensures Decode(q + tail) == match Decode(tail)
      case None => None
      case Some(rest) => Some(DecodeFullQuad(q) + rest)
  {
    assert (q + tail)[..4] == q;
    assert (q + tail)[4..] == tail;
  }

  lemma DecodeOneQuad(q: string)
    requires |q| == 4
    ensures Decode(q) == DecodeFinalQuad(q)
  {
  }

  lemma EncodeOne(data: seq<uint8>)
    requires |data| == 1
    ensures Encode(data) == EncodeSingle(data[0])
  {
  }

  lemma EncodeTwo(data: seq<uint8>)
    requires |data| == 2
    ensures Encode(data) == EncodePair(data[0], data[1])
  {
  }

  lemma EncodeThree(data: seq<uint8>)
    requires |data| == 3
    ensures Encode(data) == EncodeTriple(data[0], data[1], data[2])
  {
    assert Encode(data) == EncodeTriple(data[0], data[1], data[2]) + Encode([]);
  }

  lemma DecodeEncodeOne(data: seq<uint8>)
    requires |data| == 1
    ensures Decode(Encode(data)) == Some(data)
  {
    EncodeOne(data);
    DecodeOneQuad(EncodeSingle(data[0]));
    SingleRoundTrip(data[0]);
    assert data == [data[0]];
  }

  lemma DecodeEncodeTwo(data: seq<uint8>)
    requires |data| == 2
    ensures Decode(Encode(data)) == Some(data)
  {
    EncodeTwo(data);
    DecodeOneQuad(EncodePair(data[0], data[1]));
    PairRoundTrip(data[0], data[1]);
    assert data == [data[0], data[1]];
  }

  lemma DecodeEncodeThree(data: seq<uint8>)
    requires |data| == 3
    ensures Decode(Encode(data)) == Some(data)
  {
    EncodeThree(data);
    DecodeOneQuad(EncodeTriple(data[0], data[1], data[2]));
    TripleRoundTrip(data[0], data[1], data[2]);
    assert data == [data[0], data[1], data[2]];
  }

  /** Decoding the encoding of any byte string gives that byte string back. */
  lemma {:induction false} DecodeEncode(data: seq<uint8>)
    ensures Decode(Encode(data)) == Some(data)
  {
    if |data| == 1 {
      DecodeEncodeOne(data);
    } else if |data| == 2 {
      DecodeEncodeTwo(data);
    } else if |data| == 3 {
      DecodeEncodeThree(data);
    } else if |data| > 3 {
      var head, tail := EncodeTriple(data[0], data[1], data[2]), Encode(data[3..]);
      assert Encode(data) == head + tail;
      TripleRoundTrip(data[0], data[1], data[2]);
      DecodeEncode(data[3..]);
      DecodeFullQuadThen(head, tail);
      assert data == [data[0], data[1], data[2]] + data[3..];
    }
  }

  /** The bit arithmetic behind one group, from the 6-bit values to the bytes and back. */
  lemma QuadArithmetic(v0: sextet, v1: sextet, v2: sextet, v3: sextet)
    ensures var a, b, c := v0 * 4 + v1 / 16, (v1 % 16) * 16 + v2 / 4, (v2 % 4) * 64 + v3;
      a / 4 == v0 && (a % 4) * 16 + b / 16 == v1 && (b % 16) * 4 + c / 64 == v2 && c % 64 == v3
  {
    var a, b, c := v0 * 4 + v1 / 16, (v1 % 16) * 16 + v2 / 4, (v2 % 4) * 64 + v3;
    assert a / 4 == v0 && a % 4 == v1 / 16;
    assert b / 16 == v1 % 16 && b % 16 == v2 / 4;
    assert c / 64 == v2 % 4 && c % 64 == v3;
  }

  lemma FullQuadRoundTrip(q: string)
    requires |q| == 4 && IsFullQuad(q)
    ensures var r := DecodeFullQuad(q); EncodeTriple(r[0], r[1], r[2]) == q
  {
    var v0: int, v1: int, v2: int, v3: int := Value(q[0]), Value(q[1]), Value(q[2]), Value(q[3]);
    QuadArithmetic(v0, v1, v2, v3);
    var r := DecodeFullQuad(q);
    assert r == [v0 * 4 + v1 / 16, (v1 % 16) * 16 + v2 / 4, (v2 % 4) * 64 + v3];
    assert EncodeTriple(r[0], r[1], r[2]) == [Char(v0), Char(v1), Char(v2), Char(v3)];
  }

  lemma PaddedPairRoundTrip(q: string, data: seq<uint8>)
    requires |q| == 4 && !IsFullQuad(q) && IsAlphabetChar(q[0]) && IsAlphabetChar(q[1])
    requires IsAlphabetChar(q[2]) && q[3] == Pad && DecodeFinalQuad(q) == Some(data)
    ensures |data| == 2 && EncodePair(data[0], data[1]) == q
  {
    var v0: int, v1: int, v2: int := Value(q[0]), Value(q[1]), Value(q[2]);
    QuadArithmetic(v0, v1, v2, 0);
    assert data == [v0 * 4 + v1 / 16, (v1 % 16) * 16 + v2 / 4];
    assert EncodePair(data[0], data[1]) == [Char(v0), Char(v1), Char(v2), Pad];
  }

  lemma PaddedSingleRoundTrip(q: string, data: seq<uint8>)
    requires |q| == 4 && IsAlphabetChar(q[0]) && IsAlphabetChar(q[1])
    requires q[2] == Pad && q[3] == Pad && DecodeFinalQuad(q) == Some(data)
    ensures |data| == 1 && EncodeSingle(data[0]) == q
  {
    var v0: int, v1: int := Value(q[0]), Value(q[1]);
    QuadArithmetic(v0, v1, 0, 0);
    assert data == [v0 * 4 + v1 / 16];
    assert EncodeSingle(data[0]) == [Char(v0), Char(v1), Pad, Pad];
  }

  lemma FinalQuadRoundTrip(q: string, data: seq<uint8>)
    requires |q| == 4 && DecodeFinalQuad(q) == Some(data)
    ensures 1 <= |data| <= 3 && Encode(data) == q
  {
    if IsFullQuad(q) {
      FullQuadRoundTrip(q);
      EncodeThree(data);
    } else if q[3] == Pad && IsAlphabetChar(q[2]) {
      PaddedPairRoundTrip(q, data);
      EncodeTwo(data);
    } else {
      PaddedSingleRoundTrip(q, data);
      EncodeOne(data);
    }
  }

  /** Every text the decoder accepts is the encoding of what it decodes to. */
  lemma {:induction false} EncodeDecode(s: string, data: seq<uint8>)
    requires Decode(s) == Some(data)
    ensures Encode(data) == s
  {
    if |s| == 4 {
      FinalQuadRoundTrip(s, data);
    } else if |s| > 4 {
      var rest := Decode(s[4..]).value;
      EncodeDecode(s[4..], rest);
      var head := DecodeFullQuad(s[..4]);
      FullQuadRoundTrip(s[..4]);
      assert data == head + rest;
      assert data[3..] == rest;
      assert Encode(data) == EncodeTriple(head[0], head[1], head[2]) + Encode(rest);
      assert s == s[..4] + s[4..];
    }
  }
}
