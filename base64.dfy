/**
 * `base64_encode` as specified in section 4 of RFC 4648 (the standard
 * alphabet, with '=' padding), and the `data:` URI of RFC 2397 that the
 * captcha service wraps around it. `Decode` is the reference inverse used to
 * state that nothing is lost.
 */
module Base64 {

  type uint8 = x: int | 0 <= x < 256

  /** Table 1 of RFC 4648: the character for a 6-bit value. */
  function Digit(v: int): (c: char)
    requires 0 <= v < 64
    ensures IsAlphabetChar(c)
  {
    if v < 26 then ('A' as int + v) as char
    else if v < 52 then ('a' as int + (v - 26)) as char
    else if v < 62 then ('0' as int + (v - 52)) as char
    else if v == 62 then '+'
    else '/'
  }

  predicate IsAlphabetChar(c: char) {
    'A' <= c <= 'Z' || 'a' <= c <= 'z' || '0' <= c <= '9' || c == '+' || c == '/'
  }

  /** The 6-bit value of an alphabet character (0 for anything else). */
  function Value(c: char): (v: int)
    ensures 0 <= v < 64
  {
    if 'A' <= c <= 'Z' then c as int - 'A' as int
    else if 'a' <= c <= 'z' then c as int - 'a' as int + 26
    else if '0' <= c <= '9' then c as int - '0' as int + 52
    else if c == '+' then 62
    else if c == '/' then 63
    else 0
  }

  lemma ValueOfDigit(v: int)
    requires 0 <= v < 64
    ensures Value(Digit(v)) == v
  {
  }

  /** Three bytes make four characters, bits read most significant first. */
  function EncodeGroup(b0: uint8, b1: uint8, b2: uint8): (r: string)
    ensures |r| == 4 && forall i :: 0 <= i < 4 ==> IsAlphabetChar(r[i])
  {
    [Digit(b0 / 4), Digit(b0 % 4 * 16 + b1 / 16), Digit(b1 % 16 * 4 + b2 / 64), Digit(b2 % 64)]
  }

  /** `base64_encode($data)`. */
  function Encode(s: seq<uint8>): (r: string)
    ensures |r| == 4 * ((|s| + 2) / 3)
    ensures forall i :: 0 <= i < |r| ==> IsAlphabetChar(r[i]) || r[i] == '='
    decreases |s|
  {
    if |s| == 0 then ""
    else if |s| == 1 then EncodeLastOne(s[0])
    else if |s| == 2 then EncodeLastTwo(s[0], s[1])
    else EncodeGroup(s[0], s[1], s[2]) + Encode(s[3..])
  }

  /** A final single byte: two characters and two pads. */
  function EncodeLastOne(b0: uint8): string {
    [Digit(b0 / 4), Digit(b0 % 4 * 16), '=', '=']
  }

  /** A final pair of bytes: three characters and one pad. */
  function EncodeLastTwo(b0: uint8, b1: uint8): string {
    [Digit(b0 / 4), Digit(b0 % 4 * 16 + b1 / 16), Digit(b1 % 16 * 4), '=']
  }

  /** The inverse on one quantum of four characters, honouring the padding. */
  function DecodeGroup(q: string): seq<uint8>
    requires |q| == 4
  {
    var v0, v1, v2, v3 := Value(q[0]), Value(q[1]), Value(q[2]), Value(q[3]);
    if q[2] == '=' then [v0 * 4 + v1 / 16]
    else if q[3] == '=' then [v0 * 4 + v1 / 16, v1 % 16 * 16 + v2 / 4]
    else [v0 * 4 + v1 / 16, v1 % 16 * 16 + v2 / 4, v2 % 4 * 64 + v3]
  }

  function Decode(s: string): seq<uint8>
    decreases |s|
  {
    if |s| < 4 then [] else DecodeGroup(s[..4]) + Decode(s[4..])
  }

  lemma GroupRoundTrip(b0: uint8, b1: uint8, b2: uint8)
    ensures DecodeGroup(EncodeGroup(b0, b1, b2)) == [b0, b1, b2]
  {
    ValueOfDigit(b0 / 4);
    ValueOfDigit(b0 % 4 * 16 + b1 / 16);
    ValueOfDigit(b1 % 16 * 4 + b2 / 64);
    ValueOfDigit(b2 % 64);
    var v1, v2 := b0 % 4 * 16 + b1 / 16, b1 % 16 * 4 + b2 / 64;
    assert v1 / 16 == b0 % 4 && v1 % 16 == b1 / 16;
    assert v2 / 4 == b1 % 16 && v2 % 4 == b2 / 64;
  }

  /** Nothing is lost: decoding the encoding gives the bytes back. */
  lemma {:induction false} RoundTrip(s: seq<uint8>)
    ensures Decode(Encode(s)) == s
    decreases |s|
  {
    if |s| <= 2 {
      ShortRoundTrip(s);
    } else {
      RoundTrip(s[3..]);
      RoundTripStep(s);
    }
  }

  /** A full group in front of bytes that round-trip. */
  lemma RoundTripStep(s: seq<uint8>)
    requires |s| > 2 && Decode(Encode(s[3..])) == s[3..]
    ensures Decode(Encode(s)) == s
  {
    var e := Encode(s[3..]);
    assert Encode(s) == EncodeGroup(s[0], s[1], s[2]) + e;
    GroupThenRest(s[0], s[1], s[2], s[3..], e);
    FirstThree(s);
  }

  lemma FirstThree(s: seq<uint8>)
    requires |s| > 2
    ensures s == [s[0], s[1], s[2]] + s[3..]
  {
  }

  lemma GroupThenRest(b0: uint8, b1: uint8, b2: uint8, rest: seq<uint8>, e: string)
    requires Decode(e) == rest
    ensures Decode(EncodeGroup(b0, b1, b2) + e) == [b0, b1, b2] + rest
  {
    DecodeFront(EncodeGroup(b0, b1, b2), e);
    GroupRoundTrip(b0, b1, b2);
  }

  /** One or two bytes: the padded final quantum decodes back. */
  lemma ShortRoundTrip(s: seq<uint8>)
    requires |s| <= 2
    ensures Decode(Encode(s)) == s
  {
    if |s| == 1 {
      OneByteRoundTrip(s[0]);
      assert s == [s[0]];
    } else if |s| == 2 {
      TwoBytesRoundTrip(s[0], s[1]);
      assert s == [s[0], s[1]];
    }
  }

  lemma OneByteRoundTrip(b0: uint8)
    ensures Decode(EncodeLastOne(b0)) == [b0]
  {
    var q := EncodeLastOne(b0);
    assert Decode(q) == DecodeGroup(q) by {
      assert q[..4] == q;
      assert q[4..] == [];
    }
    ValueOfDigit(b0 / 4);
    ValueOfDigit(b0 % 4 * 16);
    assert b0 % 4 * 16 / 16 == b0 % 4;
  }

  lemma TwoBytesRoundTrip(b0: uint8, b1: uint8)
    ensures Decode(EncodeLastTwo(b0, b1)) == [b0, b1]
  {
    var q := EncodeLastTwo(b0, b1);
    assert Decode(q) == DecodeGroup(q) by {
      assert q[..4] == q;
      assert q[4..] == [];
    }
    ValueOfDigit(b0 / 4);
    ValueOfDigit(b0 % 4 * 16 + b1 / 16);
    ValueOfDigit(b1 % 16 * 4);
    assert (b0 % 4 * 16 + b1 / 16) / 16 == b0 % 4;
    assert (b0 % 4 * 16 + b1 / 16) % 16 == b1 / 16;
    assert b1 % 16 * 4 / 4 == b1 % 16;
  }

  /** Decoding takes one quantum of four characters off the front. */
  lemma DecodeFront(q: string, rest: string)
    requires |q| == 4
    ensures Decode(q + rest) == DecodeGroup(q) + Decode(rest)
  {
    assert (q + rest)[..4] == q;
    assert (q + rest)[4..] == rest;
  }

  /** Encoding is injective: different images give different strings. */
  lemma EncodeInjective(s: seq<uint8>, t: seq<uint8>)
    requires Encode(s) == Encode(t)
    ensures s == t
  {
    RoundTrip(s);
    RoundTrip(t);
  }

  // ---------------------------------------------------------------------------
  // data: URIs (RFC 2397)

  const PngDataPrefix := "data:image/png;base64,"

  /** `"data:image/png;base64,{$base64}"`. */
  function PngDataUri(png: seq<uint8>): (uri: string)
    ensures |uri| == |PngDataPrefix| + 4 * ((|png| + 2) / 3)
    ensures uri[..|PngDataPrefix|] == PngDataPrefix
    ensures forall i :: |PngDataPrefix| <= i < |uri| ==> IsAlphabetChar(uri[i]) || uri[i] == '='
  {
    PngDataPrefix + Encode(png)
  }

  /** The reference reading of such a URI: drop the prefix, decode the rest. */
  function PngDataUriBytes(uri: string): seq<uint8> {
    if |uri| >= |PngDataPrefix| then Decode(uri[|PngDataPrefix|..]) else []
  }

  lemma DataUriRoundTrip(png: seq<uint8>)
    ensures PngDataUriBytes(PngDataUri(png)) == png
  {
    assert PngDataUri(png)[|PngDataPrefix|..] == Encode(png);
    RoundTrip(png);
  }
}
