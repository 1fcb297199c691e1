/** Strict UTF-8 decoding, as `std::str::from_utf8` applies it to each chunk of a response. */
module Utf8 {
  import opened Bits
  import opened Basics

  predicate InRange(b: Byte, lo: nat, hi: nat) {
    lo <= b <= hi
  }

  predicate IsContinuation(b: Byte) {
    InRange(b, 0x80, 0xBF)
  }

  /** Length of the character that starts with byte b; 0 when no character does. */
  function CharLength(b: Byte): (n: nat)
    ensures n <= 4
  {
    if b < 0x80 then 1
    else if InRange(b, 0xC2, 0xDF) then 2
    else if InRange(b, 0xE0, 0xEF) then 3
    else if InRange(b, 0xF0, 0xF4) then 4
    else 0
  }

  /** The second byte must also rule out overlong forms, surrogates and values above U+10FFFF. */
  predicate SecondByte(first: Byte, b: Byte) {
    if first == 0xE0 then InRange(b, 0xA0, 0xBF)
    else if first == 0xED then InRange(b, 0x80, 0x9F)
    else if first == 0xF0 then InRange(b, 0x90, 0xBF)
    else if first == 0xF4 then InRange(b, 0x80, 0x8F)
    else InRange(b, 0x80, 0xBF)
  }

  /** The bytes start with one whole character. */
  predicate HasChar(bytes: seq<Byte>) {
    && |bytes| > 0
    && var n := CharLength(bytes[0]);
       && 0 < n <= |bytes|
       && (n >= 2 ==> SecondByte(bytes[0], bytes[1]))
       && (n >= 3 ==> IsContinuation(bytes[2]))
       && (n == 4 ==> IsContinuation(bytes[3]))
  }

  /** The six payload bits of a continuation byte. */
  function Low6(b: Byte): int {
    b - 0x80
  }

  function CodePoint(bytes: seq<Byte>): (c: nat)
    requires HasChar(bytes)
    ensures c < 0xD800 || 0xE000 <= c < 0x11_0000
  {
    var n, first: int := CharLength(bytes[0]), bytes[0];
    if n == 1 then first
    else if n == 2 then (first - 0xC0) * 0x40 + Low6(bytes[1])
    else if n == 3 then (first - 0xE0) * 0x1000 + Low6(bytes[1]) * 0x40 + Low6(bytes[2])
    else (first - 0xF0) * 0x40000 + Low6(bytes[1]) * 0x1000 + Low6(bytes[2]) * 0x40 + Low6(bytes[3])
  }

  function Decode(bytes: seq<Byte>): Option<string> {
    if |bytes| == 0 then Some("")
    else if !HasChar(bytes) then None
    else
      match Decode(bytes[CharLength(bytes[0])..])
      case None => None
      case Some(rest) => Some([CodePoint(bytes) as char] + rest)
  }

  /** A whole character at the front is not affected by what follows. */
  lemma FrontChar(a: seq<Byte>, b: seq<Byte>)
    requires HasChar(a)
    ensures HasChar(a + b) && CodePoint(a + b) == CodePoint(a)
    ensures (a + b)[CharLength(a[0])..] == a[CharLength(a[0])..] + b
  {
  }

  /** Decoding, one character at a time. */
  lemma DecodeFront(bytes: seq<Byte>)
    ensures Decode([]) == Some("")
    ensures |bytes| > 0 && Decode(bytes).Some? ==> HasChar(bytes)
    ensures HasChar(bytes) ==>
              var tail := Decode(bytes[CharLength(bytes[0])..]);
              Decode(bytes) == if tail.None? then None else Some([CodePoint(bytes) as char] + tail.value)
  {
    hide CodePoint;
  }

  /** After a valid prefix, the rest decides, and the texts are joined. */
  lemma {:induction false} DecodeAppend(a: seq<Byte>, b: seq<Byte>)
    requires Decode(a).Some?
    ensures Decode(a + b) == match Decode(b) case None => None case Some(t) => Some(Decode(a).value + t)
    decreases |a|
  {
    hide CharLength, CodePoint, Decode, HasChar;
    DecodeFront(a);
    if |a| == 0 {
      assert a + b == b;
      if Decode(b).Some? { assert "" + Decode(b).value == Decode(b).value; }
    } else {
      FrontChar(a, b);
      DecodeFront(a + b);
      var rest := a[CharLength(a[0])..];
      DecodeAppend(rest, b);
      if Decode(b).Some? {
        var c := [CodePoint(a) as char];
        assert c + (Decode(rest).value + Decode(b).value) == (c + Decode(rest).value) + Decode(b).value;
      }
    }
  }

  /** A prefix of a valid text is valid exactly when the byte after it does not continue a character. */
  lemma {:induction false} PrefixDecodesIff(bytes: seq<Byte>, n: nat)
    requires Decode(bytes).Some? && n < |bytes|
    ensures Decode(bytes[..n]).Some? <==> !IsContinuation(bytes[n])
    decreases n
  {
    hide CodePoint;
    var k := CharLength(bytes[0]);
    if k <= n {
      assert bytes[..n][k..] == bytes[k..][..n - k];
      PrefixDecodesIff(bytes[k..], n - k);
    } else if 0 < n {
      assert !HasChar(bytes[..n]);
    }
  }

  // ---- Encoding ------------------------------------------------------------------

  function High(c: nat): (b: Byte)
    requires c < 0x40
    ensures b == 0x80 + c
  {
    0x80 + c
  }

  /** The UTF-8 form of a number below 2^21 (RFC 3629, section 3). */
  function EncodeValue(v: nat): (bytes: seq<Byte>)
    requires v < 0x20_0000
    ensures 1 <= |bytes| <= 4
  {
    var p := v / 0x40;
    var q := p / 0x40;
    var r := q / 0x40;
    if v < 0x80 then [v]
    else if v < 0x800 then [0xC0 + p, High(v % 0x40)]
    else if v < 0x10000 then [0xE0 + q, High(p % 0x40), High(v % 0x40)]
    else [0xF0 + r, High(q % 0x40), High(p % 0x40), High(v % 0x40)]
  }

  function EncodeChar(c: char): (bytes: seq<Byte>)
    ensures 1 <= |bytes| <= 4
  {
    EncodeValue(c as nat)
  }

  function Encode(s: string): seq<Byte> {
    if |s| == 0 then [] else EncodeChar(s[0]) + Encode(s[1..])
  }

  /** The numbers of characters: no surrogates, nothing above U+10FFFF. */
  predicate IsScalar(v: nat) {
    v < 0xD800 || 0xE000 <= v < 0x11_0000
  }

  lemma OneByteValue(v: nat)
    requires v < 0x80
    ensures var b := EncodeValue(v); HasChar(b) && CharLength(b[0]) == |b| && CodePoint(b) == v
  {
  }

  lemma TwoByteValue(v: nat)
    requires 0x80 <= v < 0x800
    ensures var b := EncodeValue(v); HasChar(b) && CharLength(b[0]) == |b| && CodePoint(b) == v
  {
    assert v == v / 0x40 * 0x40 + v % 0x40;
  }

  lemma ThreeByteValue(v: nat)
    requires 0x800 <= v < 0x10000 && IsScalar(v)
    ensures var b := EncodeValue(v); HasChar(b) && CharLength(b[0]) == |b| && CodePoint(b) == v
  {
    var p := v / 0x40;
    assert v == p * 0x40 + v % 0x40 && p == p / 0x40 * 0x40 + p % 0x40;
    assert p / 0x40 == 0 ==> p >= 0x20;
    assert p / 0x40 == 13 ==> p % 0x40 < 0x20;
  }

  lemma FourByteValue(v: nat)
    requires 0x10000 <= v < 0x11_0000
    ensures var b := EncodeValue(v); HasChar(b) && CharLength(b[0]) == |b| && CodePoint(b) == v
  {
    var p := v / 0x40;
    var q := p / 0x40;
    assert v == p * 0x40 + v % 0x40 && p == q * 0x40 + p % 0x40 && q == q / 0x40 * 0x40 + q % 0x40;
    assert 0x10 <= q < 0x110;
  }

  /** An encoded character is one whole character, and stands for itself. */
  lemma CharOfEncoded(c: char)
    ensures var bytes := EncodeChar(c);
            HasChar(bytes) && CharLength(bytes[0]) == |bytes| && CodePoint(bytes) as char == c
  {
    hide HasChar, CharLength, CodePoint, EncodeValue;
    var v := c as nat;
    if v < 0x80 { OneByteValue(v); }
    else if v < 0x800 { TwoByteValue(v); }
    else if v < 0x10000 { ThreeByteValue(v); }
    else { FourByteValue(v); }
  }

  /** The payload bits of the bytes, and how many bytes they need. */
  lemma LengthOfValue(bytes: seq<Byte>)
    requires HasChar(bytes)
    ensures var n, v := CharLength(bytes[0]), CodePoint(bytes);
            && (n == 1 <==> v < 0x80) && (n == 2 <==> 0x80 <= v < 0x800) && (n == 3 <==> 0x800 <= v < 0x10000)
  {
  }

  lemma Digit64(high: nat, low: nat)
    requires low < 0x40
    ensures (high * 0x40 + low) / 0x40 == high && (high * 0x40 + low) % 0x40 == low
  {
  }

  /** A whole character at the front is the encoding of its code point: there are no other spellings. */
  lemma EncodedOfChar(bytes: seq<Byte>)
    requires HasChar(bytes)
    ensures EncodeChar(CodePoint(bytes) as char) == bytes[..CharLength(bytes[0])]
  {
    LengthOfValue(bytes);
    var n, v := CharLength(bytes[0]), CodePoint(bytes);
    var first: int := bytes[0];
    if n == 2 {
      Digit64(first - 0xC0, Low6(bytes[1]));
    } else if n == 3 {
      var p := (first - 0xE0) * 0x40 + Low6(bytes[1]);
      assert v == p * 0x40 + Low6(bytes[2]);
      Digit64(p, Low6(bytes[2]));
      Digit64(first - 0xE0, Low6(bytes[1]));
    } else if n == 4 {
      var q := (first - 0xF0) * 0x40 + Low6(bytes[1]);
      var p := q * 0x40 + Low6(bytes[2]);
      assert v == p * 0x40 + Low6(bytes[3]);
      Digit64(p, Low6(bytes[3]));
      Digit64(q, Low6(bytes[2]));
      Digit64(first - 0xF0, Low6(bytes[1]));
    }
  }

  /** Decoding is the inverse of encoding, and nothing but encodings decodes. */
  lemma {:induction false} DecodeOfEncode(s: string)
    ensures Decode(Encode(s)) == Some(s)
  {
    hide HasChar, CodePoint, CharLength, EncodeChar, Decode;
    if |s| == 0 {
      DecodeFront([]);
    } else {
      var front, rest := EncodeChar(s[0]), Encode(s[1..]);
      CharOfEncoded(s[0]);
      FrontChar(front, rest);
      DecodeFront(front + rest);
      DecodeOfEncode(s[1..]);
      assert front[|front|..] + rest == rest;
      assert s == [s[0]] + s[1..];
    }
  }

  lemma {:induction false} EncodeOfDecode(bytes: seq<Byte>)
    requires Decode(bytes).Some?
    ensures Encode(Decode(bytes).value) == bytes
    decreases |bytes|
  {
    hide HasChar, CodePoint, EncodeChar, Decode;
    DecodeFront(bytes);
    if |bytes| > 0 {
      var n := CharLength(bytes[0]);
      WholeChar(bytes);
      EncodedOfChar(bytes);
      EncodeOfDecode(bytes[n..]);
      var c, rest := CodePoint(bytes) as char, Decode(bytes[n..]).value;
      assert ([c] + rest)[1..] == rest;
      assert bytes == bytes[..n] + bytes[n..];
    }
  }

  lemma WholeChar(bytes: seq<Byte>)
    requires HasChar(bytes)
    ensures 0 < CharLength(bytes[0]) <= |bytes|
  {
  }
}
