/** turboquant/src/pack.rs: 32 indices of three or four bits packed into bytes. */
module Pack {
  import opened Bits

  const BLOCK_SIZE: nat := 32

  predicate IsBitWidth(bits: nat) {
    bits == 3 || bits == 4
  }

  /** `packed_bytes`. */
  function PackedBytes(bits: nat): (n: nat)
    requires IsBitWidth(bits)
    ensures n * 8 == BLOCK_SIZE * bits
  {
    if bits == 3 then 12 else 16
  }

  lemma DigitsFit(s: seq<nat>)
    ensures AreDigits(s, 8) ==> forall i :: 0 <= i < |s| ==> s[i] < 256
    ensures AreDigits(s, 4) ==> forall i :: 0 <= i < |s| ==> s[i] < 16
    ensures AreDigits(s, 3) ==> forall i :: 0 <= i < |s| ==> s[i] < 8
  {
  }

  /** Packing is the change from base 2^bits to base 2^8. */
  function Packed(indices: seq<Byte>, bits: nat): (r: seq<Byte>)
    requires |indices| == BLOCK_SIZE && IsBitWidth(bits)
    ensures |r| == PackedBytes(bits)
  {
    DigitsAreDigits(Number(indices, bits), 8, PackedBytes(bits));
    DigitsFit(Rebase(indices, bits, 8, PackedBytes(bits)));
    Rebase(indices, bits, 8, PackedBytes(bits))
  }

  /** Unpacking is the change from base 2^8 to base 2^bits. */
  function Unpacked(packed: seq<Byte>, bits: nat): (r: seq<Byte>)
    requires IsBitWidth(bits) && |packed| == PackedBytes(bits)
    ensures |r| == BLOCK_SIZE
  {
    DigitsAreDigits(Number(packed, 8), bits, BLOCK_SIZE);
    DigitsFit(Rebase(packed, 8, bits, BLOCK_SIZE));
    Rebase(packed, 8, bits, BLOCK_SIZE)
  }

  lemma BytesAreDigits(s: seq<Byte>)
    ensures AreDigits(s, 8)
  {
  }

  /** A byte string with the bit stream of the indices is their packing, and their number in base 256. */
  lemma PackedByBits(indices: seq<Byte>, bits: nat, packed: seq<Byte>)
    requires |indices| == BLOCK_SIZE && IsBitWidth(bits) && |packed| == PackedBytes(bits)
    requires forall p :: StreamBit(packed, 8, p) == StreamBit(indices, bits, p)
    ensures Number(packed, 8) == Number(indices, bits)
    ensures packed == Packed(indices, bits)
  {
    SameStreamSameNumber(packed, 8, indices, bits);
    BytesAreDigits(packed);
    DigitsOfNumber(packed, 8);
  }

  lemma UnpackedByBits(packed: seq<Byte>, bits: nat, indices: seq<Byte>)
    requires |indices| == BLOCK_SIZE && IsBitWidth(bits) && |packed| == PackedBytes(bits)
    requires AreDigits(indices, bits)
    requires forall p :: StreamBit(indices, bits, p) == StreamBit(packed, 8, p)
    ensures Number(indices, bits) == Number(packed, 8)
    ensures indices == Unpacked(packed, bits)
  {
    SameStreamSameNumber(indices, bits, packed, 8);
    DigitsOfNumber(indices, bits);
  }

  /** The stream of a block, by element and position inside it. */
  lemma {:induction false} StreamIndex(s: seq<nat>, w: nat, p: nat)
    requires w == 3 || w == 4 || w == 8
    ensures StreamBit(s, w, p) == (p / w < |s| && Bit(s[p / w], p % w))
    decreases |s|
  {
    if |s| > 0 && p >= w {
      StreamIndex(s[1..], w, p - w);
      assert (p - w) / w == p / w - 1 && (p - w) % w == p % w by {
        if w == 3 {} else if w == 4 {} else {}
      }
    }
  }

  /** Or-ing v into byte j adds v's bits there and touches nothing else. */
  lemma StreamOr(s: seq<nat>, j: nat, v: nat, p: nat)
    requires j < |s|
    ensures StreamBit(s[j := Or(s[j], v)], 8, p) == (StreamBit(s, 8, p) || (p / 8 == j && Bit(v, p % 8)))
  {
    StreamIndex(s, 8, p);
    StreamIndex(s[j := Or(s[j], v)], 8, p);
    BitOr(s[j], v, p % 8);
  }

  ghost predicate SameStream(a: seq<nat>, w: nat, b: seq<nat>, w': nat)
    requires w > 0 && w' > 0
  {
    forall p :: StreamBit(a, w, p) == StreamBit(b, w', p)
  }

  /** One more element extends the stream by its w bits. */
  lemma StreamExtend(s: seq<nat>, w: nat, i: nat, p: nat)
    requires (w == 3 || w == 4 || w == 8) && i < |s|
    ensures StreamBit(s[..i + 1], w, p) == (StreamBit(s[..i], w, p) || (p / w == i && Bit(s[i], p % w)))
  {
    StreamIndex(s[..i + 1], w, p);
    StreamIndex(s[..i], w, p);
  }

  lemma {:induction false} StreamOfZeros(s: seq<nat>, w: nat, p: nat)
    requires w > 0 && forall i :: 0 <= i < |s| ==> s[i] == 0
    ensures !StreamBit(s, w, p)
    decreases |s|
  {
    if |s| > 0 {
      if p < w { BitZero(p); } else { StreamOfZeros(s[1..], w, p - w); }
    }
  }

  // ---- Three bits ----------------------------------------------------------------

  /** What one loop step does to the bytes: index number i goes to bits 3i, 3i+1, 3i+2. */
  function Put3(packed: seq<nat>, i: nat, idx: nat): (r: seq<nat>)
    requires |packed| == 12 && i < 32
    ensures |r| == 12
  {
    var byte, offset := 3 * i / 8, 3 * i % 8;
    var first := packed[byte := Or(packed[byte], ShiftLeft(And(idx, 7), offset))];
    if offset > 5 then first[byte + 1 := Or(first[byte + 1], ShiftRight(And(idx, 7), 8 - offset))] else first
  }

  lemma Put3Bit(packed: seq<nat>, i: nat, idx: nat, p: nat)
    requires |packed| == 12 && i < 32
    ensures StreamBit(Put3(packed, i, idx), 8, p) == (StreamBit(packed, 8, p) || (p / 3 == i && Bit(idx, p % 3)))
  {
    hide Bit, StreamBit, Or, And, ShiftLeft, ShiftRight;
    var byte, offset, u := 3 * i / 8, 3 * i % 8, p % 8;
    var low := ShiftLeft(And(idx, 7), offset);
    var first := packed[byte := Or(packed[byte], low)];
    StreamOr(packed, byte, low, p);
    BitShiftLeft(And(idx, 7), offset, u);
    if u >= offset { BitMask(idx, u - offset); }
    if offset > 5 {
      var high := ShiftRight(And(idx, 7), 8 - offset);
      StreamOr(first, byte + 1, high, p);
      BitShiftRight(And(idx, 7), 8 - offset, u);
      BitMask(idx, u + (8 - offset));
    }
    assert p / 3 == i <==> 3 * i <= p < 3 * i + 3;
    assert p / 3 == i ==> p % 3 == p - 3 * i;
    assert 3 * i == 8 * byte + offset && p == 8 * (p / 8) + u;
  }

  lemma Put3Step(packed: seq<nat>, indices: seq<nat>, i: nat)
    requires |packed| == 12 && |indices| == 32 && i < 32
    requires SameStream(packed, 8, indices[..i], 3)
    ensures SameStream(Put3(packed, i, indices[i]), 8, indices[..i + 1], 3)
  {
    hide Bit, StreamBit, Put3;
    forall p: nat ensures StreamBit(Put3(packed, i, indices[i]), 8, p) == StreamBit(indices[..i + 1], 3, p) {
      Put3Bit(packed, i, indices[i], p);
      StreamExtend(indices, 3, i, p);
    }
  }

  /** `pack_3bit`: at every step the bytes and the indices placed so far are the same number. */
  method Pack3Bit(indices: seq<Byte>) returns (packed: seq<Byte>)
    requires |indices| == 32
    ensures |packed| == 12
    ensures Number(packed, 8) == Number(indices, 3)
    ensures packed == Packed(indices, 3)
  {
    hide Bit, StreamBit, Or, And, ShiftLeft, ShiftRight, Number, Rebase;
    var bytes := new Byte[12](_ => 0);
    var bitPos := 0;
    forall p: nat ensures StreamBit(bytes[..], 8, p) == StreamBit(indices[..0], 3, p) {
      StreamOfZeros(bytes[..], 8, p);
      StreamOfZeros(indices[..0], 3, p);
    }
    SameStreamSameNumber(bytes[..], 8, indices[..0], 3);
    for i := 0 to 32
      invariant bitPos == 3 * i
      invariant SameStream(bytes[..], 8, indices[..i], 3)
      invariant Number(bytes[..], 8) == Number(indices[..i], 3)
    {
      ghost var before := bytes[..];
      var idx := indices[i];
      var byteIdx := bitPos / 8;
      var bitOffset := bitPos % 8;
      OrByte(bytes[byteIdx], ShiftLeft(And(idx, 7), bitOffset));
      bytes[byteIdx] := Or(bytes[byteIdx], ShiftLeft(And(idx, 7), bitOffset));
      if bitOffset > 5 {
        ShiftRightByte(idx, 8 - bitOffset);
        OrByte(bytes[byteIdx + 1], ShiftRight(And(idx, 7), 8 - bitOffset));
        bytes[byteIdx + 1] := Or(bytes[byteIdx + 1], ShiftRight(And(idx, 7), 8 - bitOffset));
      }
      bitPos := bitPos + 3;
      assert bytes[..] == Put3(before, i, idx);
      Put3Step(before, indices, i);
      SameStreamSameNumber(bytes[..], 8, indices[..i + 1], 3);
    }
    assert indices[..32] == indices;
    packed := bytes[..];
    PackedByBits(indices, 3, packed);
  }

  /** Or of two bytes is a byte. */
  lemma OrByte(a: nat, b: nat)
    requires a < 256 && b < 256
    ensures Or(a, b) < 256
  {
    OrBound(a, b, 8);
    assert Pow2(8) == 256 by { assert Pow2(4) == 16; }
  }

  lemma {:induction false} OrBound(a: nat, b: nat, n: nat)
    requires a < Pow2(n) && b < Pow2(n)
    ensures Or(a, b) < Pow2(n)
  {
    if n > 0 { OrBound(a / 2, b / 2, n - 1); }
  }

  lemma {:induction false} AndBound(a: nat, b: nat)
    ensures And(a, b) <= b
  {
    if a != 0 { AndBound(a / 2, b / 2); }
  }

  lemma {:induction false} ShiftRightBound(x: nat, s: nat)
    ensures ShiftRight(x, s) <= x
  {
    if s > 0 { ShiftRightBound(x / 2, s - 1); }
  }

  lemma ShiftRightByte(idx: nat, s: nat)
    ensures ShiftRight(And(idx, 7), s) < 256
  {
    AndBound(idx, 7);
    ShiftRightBound(And(idx, 7), s);
  }

  /** The three bits read for index number i. */
  function Get3(packed: seq<Byte>, i: nat): nat
    requires |packed| == 12 && i < 32
  {
    var byte, offset := 3 * i / 8, 3 * i % 8;
    var val := And(ShiftRight(packed[byte], offset), 7);
    if offset > 5 && byte + 1 < 12 then Or(val, And(ShiftLeft(packed[byte + 1], 8 - offset), 7)) else val
  }

  lemma Get3Bit(packed: seq<Byte>, i: nat, k: nat)
    requires |packed| == 12 && i < 32
    ensures Bit(Get3(packed, i), k) == (k < 3 && StreamBit(packed, 8, 3 * i + k))
  {
    hide Bit, StreamBit, Or, And, ShiftLeft, ShiftRight;
    var byte, offset := 3 * i / 8, 3 * i % 8;
    var x := ShiftRight(packed[byte], offset);
    BitMask(x, k);
    BitShiftRight(packed[byte], offset, k);
    if k < 3 {
      StreamIndex(packed, 8, 3 * i + k);
      if k + offset >= 8 { NoBitsAboveByte(packed[byte], k + offset); }
    }
    if offset > 5 {
      var y := ShiftLeft(packed[byte + 1], 8 - offset);
      BitOr(And(x, 7), And(y, 7), k);
      BitMask(y, k);
      if k < 3 { BitShiftLeft(packed[byte + 1], 8 - offset, k); }
    }
  }

  lemma NoBitsAboveByte(x: Byte, k: nat)
    requires k >= 8
    ensures !Bit(x, k)
  {
    hide *;
    LowByte(x);
    BitLow(x, 8, k);
  }

  lemma Get3Bound(packed: seq<Byte>, i: nat)
    requires |packed| == 12 && i < 32
    ensures Get3(packed, i) < 8
  {
    hide Get3, Bit;
    var v := Get3(packed, i);
    forall k: nat ensures Bit(Low(v, 3), k) == Bit(v, k) {
      Get3Bit(packed, i, k);
      BitLow(v, 3, k);
    }
    SameBits(Low(v, 3), v);
    LowBound(v, 3);
    assert Pow2(3) == 8;
  }

  /** Indices whose bits are read off the byte stream are the unpacked block. */
  lemma Unpacked3ByBits(packed: seq<Byte>, indices: seq<Byte>)
    requires |packed| == 12 && |indices| == 32
    requires forall i :: 0 <= i < 32 ==> indices[i] == Get3(packed, i)
    ensures indices == Unpacked(packed, 3) && Number(indices, 3) == Number(packed, 8)
    ensures forall i :: 0 <= i < 32 ==> indices[i] < 8
  {
    hide Get3, Bit, StreamBit, Number, Rebase;
    forall i | 0 <= i < 32 ensures indices[i] < 8 { Get3Bound(packed, i); }
    assert Pow2(3) == 8;
    forall p: nat ensures StreamBit(indices, 3, p) == StreamBit(packed, 8, p) {
      StreamIndex(indices, 3, p);
      if p / 3 < 32 {
        Get3Bit(packed, p / 3, p % 3);
        assert 3 * (p / 3) + p % 3 == p;
      } else {
        StreamIndex(packed, 8, p);
      }
    }
    UnpackedByBits(packed, 3, indices);
  }

  /** `unpack_3bit`. */
  method Unpack3Bit(packed: seq<Byte>) returns (indices: seq<Byte>)
    requires |packed| == 12
    ensures |indices| == 32
    ensures forall i :: 0 <= i < 32 ==> indices[i] < 8
    ensures Number(indices, 3) == Number(packed, 8)
    ensures indices == Unpacked(packed, 3)
  {
    hide Bit, StreamBit, Or, And, ShiftLeft, ShiftRight, Number, Rebase;
    var a := new Byte[32](_ => 0);
    var bitPos := 0;
    for i := 0 to 32
      invariant bitPos == 3 * i
      invariant forall k :: 0 <= k < i ==> a[k] == Get3(packed, k)
    {
      var byteIdx := bitPos / 8;
      var bitOffset := bitPos % 8;
      var val := And(ShiftRight(packed[byteIdx], bitOffset), 7);
      if bitOffset > 5 && byteIdx + 1 < 12 {
        val := Or(val, And(ShiftLeft(packed[byteIdx + 1], 8 - bitOffset), 7));
      }
      assert val == Get3(packed, i);
      Get3Bound(packed, i);
      a[i] := val;
      bitPos := bitPos + 3;
    }
    indices := a[..];
    Unpacked3ByBits(packed, indices);
  }

  // ---- Four bits -----------------------------------------------------------------

  function Pair4(low: nat, high: nat): nat {
    Or(And(low, 15), ShiftLeft(And(high, 15), 4))
  }

  lemma Pair4Bit(low: nat, high: nat, k: nat)
    requires k < 8
    ensures Bit(Pair4(low, high), k) == if k < 4 then Bit(low, k) else Bit(high, k - 4)
  {
    hide Bit, Or, And, ShiftLeft;
    BitOr(And(low, 15), ShiftLeft(And(high, 15), 4), k);
    BitMask(low, k);
    BitShiftLeft(And(high, 15), 4, k);
    if k >= 4 { BitMask(high, k - 4); }
  }

  lemma Pair4Byte(low: nat, high: nat)
    ensures Pair4(low, high) < 256
  {
    AndBound(low, 15);
    OrByte(And(low, 15), ShiftLeft(And(high, 15), 4));
  }

  /** `pack_4bit`. */
  method Pack4Bit(indices: seq<Byte>) returns (packed: seq<Byte>)
    requires |indices| == 32
    ensures |packed| == 16
    ensures Number(packed, 8) == Number(indices, 4)
    ensures packed == Packed(indices, 4)
  {
    hide Bit, StreamBit, Or, And, ShiftLeft, Number, Rebase, Pair4;
    var bytes := new Byte[16](_ => 0);
    for i := 0 to 16
      invariant forall k :: 0 <= k < i ==> bytes[k] == Pair4(indices[k * 2], indices[k * 2 + 1])
    {
      Pair4Byte(indices[i * 2], indices[i * 2 + 1]);
      bytes[i] := Pair4(indices[i * 2], indices[i * 2 + 1]);
    }
    packed := bytes[..];
    forall p: nat ensures StreamBit(packed, 8, p) == StreamBit(indices, 4, p) {
      StreamIndex(packed, 8, p);
      StreamIndex(indices, 4, p);
      var j, k := p / 8, p % 8;
      if j < 16 {
        Pair4Bit(indices[j * 2], indices[j * 2 + 1], k);
        assert p / 4 == 2 * j + (if k < 4 then 0 else 1) && p % 4 == if k < 4 then k else k - 4;
      }
    }
    PackedByBits(indices, 4, packed);
  }

  lemma Nibble(x: Byte, k: nat)
    ensures Bit(And(x, 15), k) == (k < 4 && Bit(x, k)) && And(x, 15) < 16
    ensures Bit(And(ShiftRight(x, 4), 15), k) == (k < 4 && Bit(x, k + 4)) && And(ShiftRight(x, 4), 15) < 16
  {
    hide Bit, And, ShiftRight;
    BitMask(x, k);
    BitMask(ShiftRight(x, 4), k);
    BitShiftRight(x, 4, k);
    AndBound(x, 15);
    AndBound(ShiftRight(x, 4), 15);
  }

  /** `unpack_4bit`. */
  method Unpack4Bit(packed: seq<Byte>) returns (indices: seq<Byte>)
    requires |packed| == 16
    ensures |indices| == 32
    ensures forall i :: 0 <= i < 32 ==> indices[i] < 16
    ensures Number(indices, 4) == Number(packed, 8)
    ensures indices == Unpacked(packed, 4)
  {
    hide Bit, StreamBit, Or, And, ShiftRight, Number, Rebase;
    var a := new Byte[32](_ => 0);
    for i := 0 to 16
      invariant forall k :: 0 <= k < i ==> a[k * 2] == And(packed[k], 15)
      invariant forall k :: 0 <= k < i ==> a[k * 2 + 1] == And(ShiftRight(packed[k], 4), 15)
    {
      Nibble(packed[i], 0);
      a[i * 2] := And(packed[i], 15);
      a[i * 2 + 1] := And(ShiftRight(packed[i], 4), 15);
    }
    indices := a[..];
    Unpacked4ByBits(packed, indices);
  }

  lemma Unpacked4ByBits(packed: seq<Byte>, indices: seq<Byte>)
    requires |packed| == 16 && |indices| == 32
    requires forall k :: 0 <= k < 16 ==> indices[k * 2] == And(packed[k], 15)
    requires forall k :: 0 <= k < 16 ==> indices[k * 2 + 1] == And(ShiftRight(packed[k], 4), 15)
    ensures indices == Unpacked(packed, 4) && Number(indices, 4) == Number(packed, 8)
    ensures forall i :: 0 <= i < 32 ==> indices[i] < 16
  {
    hide Bit, StreamBit, And, ShiftRight, Number, Rebase;
    assert Pow2(4) == 16;
    forall i | 0 <= i < 32 ensures indices[i] < 16 {
      var k := i / 2;
      Nibble(packed[k], 0);
      assert i == k * 2 || i == k * 2 + 1;
    }
    forall p: nat ensures StreamBit(indices, 4, p) == StreamBit(packed, 8, p) {
      StreamIndex(indices, 4, p);
      StreamIndex(packed, 8, p);
      var j, k := p / 8, p % 8;
      if j < 16 {
        Nibble(packed[j], p % 4);
        assert p / 4 == j * 2 + (if k < 4 then 0 else 1) && p % 4 == if k < 4 then k else k - 4;
      }
    }
    UnpackedByBits(packed, 4, indices);
  }

  // ---- The bijection -------------------------------------------------------------

  /** Between blocks of 32 indices in range and byte blocks, packing and unpacking are inverse both ways. */
  lemma PackUnpackBijection(indices: seq<Byte>, packed: seq<Byte>, bits: nat)
    requires IsBitWidth(bits) && |indices| == BLOCK_SIZE && |packed| == PackedBytes(bits)
    requires AreDigits(indices, bits)
    ensures Number(Packed(indices, bits), 8) == Number(indices, bits)
    ensures Packed(indices, bits) == packed <==> indices == Unpacked(packed, bits)
  {
    hide Number, Digits, StreamBit, Pow2;
    BytesAreDigits(packed);
    assert |indices| * bits == PackedBytes(bits) * 8;
    RebaseRoundTrip(indices, bits, 8, PackedBytes(bits));
    RebaseRoundTrip(packed, 8, bits, BLOCK_SIZE);
  }
}
