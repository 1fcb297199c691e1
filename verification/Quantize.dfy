/** turboquant/src/quantize.rs, whole tensors: the loops over the byte buffers. */
module Quantize {
  import opened Basics
  import opened Vectors
  import opened Walsh
  import opened Wht
  import opened Bits
  import opened Pack
  import opened Codebooks
  import opened VectorCodec

  datatype Shape = Shape(b: nat, h: nat, s: nat, d: nat)

  function VectorCount(shape: Shape): nat {
    shape.b * shape.h * shape.s
  }

  /** Vector (i, j, t) of a (b, h, s, d) tensor is slot (i * h + j) * s + t, row by row. */
  function SlotOf(shape: Shape, i: nat, j: nat, t: nat): nat {
    Place(Place(i, j, shape.h), t, shape.s)
  }

  /** Entry (i, j) of a matrix, row by row. */
  function Place(i: nat, j: nat, cols: nat): nat {
    i * cols + j
  }

  /** Every vector of the tensor has its own slot, and every slot holds a vector. */
  lemma SlotsAreVectors(shape: Shape, v: nat)
    ensures v < VectorCount(shape) <==> exists i, j, t ::
              0 <= i < shape.b && 0 <= j < shape.h && 0 <= t < shape.s && v == SlotOf(shape, i, j, t)
  {
    hide Place;
    if v < VectorCount(shape) {
      SlotOwner(shape, v);
    }
    forall i: nat, j: nat, t: nat | i < shape.b && j < shape.h && t < shape.s && v == SlotOf(shape, i, j, t)
      ensures v < VectorCount(shape)
    {
      RowBelow(i, j, shape.b, shape.h);
      RowBelow(Place(i, j, shape.h), t, shape.b * shape.h, shape.s);
    }
  }

  lemma SlotOwner(shape: Shape, v: nat)
    requires v < VectorCount(shape)
    ensures exists i, j, t ::
              0 <= i < shape.b && 0 <= j < shape.h && 0 <= t < shape.s && v == SlotOf(shape, i, j, t)
  {
    var r, t := RowAndRest(v, shape.b * shape.h, shape.s);
    var i, j := RowAndRest(r, shape.b, shape.h);
    assert v == SlotOf(shape, i, j, t);
  }

  lemma OneVectorPerSlot(shape: Shape, i: nat, j: nat, t: nat, i': nat, j': nat, t': nat)
    requires j < shape.h && j' < shape.h && t < shape.s && t' < shape.s
    requires SlotOf(shape, i, j, t) == SlotOf(shape, i', j', t')
    ensures i == i' && j == j' && t == t'
  {
    hide Place;
    SameRow(Place(i, j, shape.h), t, Place(i', j', shape.h), t', shape.s);
    SameRow(i, j, i', j', shape.h);
  }

  lemma RowsMonotone(a: nat, b: nat, cols: nat)
    ensures a <= b ==> a * cols <= b * cols
  {
  }

  lemma RowBelow(i: nat, j: nat, rows: nat, cols: nat)
    requires i < rows && j < cols
    ensures Place(i, j, cols) < rows * cols
  {
    RowsMonotone(i + 1, rows, cols);
    assert (i + 1) * cols == i * cols + cols;
  }

  lemma RowAndRest(v: nat, rows: nat, cols: nat) returns (i: nat, j: nat)
    requires v < rows * cols
    ensures i < rows && j < cols && v == Place(i, j, cols)
  {
    i, j := v / cols, v % cols;
    RowsMonotone(rows, i, cols);
  }

  lemma SameRow(i: nat, j: nat, i': nat, j': nat, cols: nat)
    requires j < cols && j' < cols && Place(i, j, cols) == Place(i', j', cols)
    ensures i == i' && j == j'
  {
    RowsMonotone(i + 1, i', cols);
    RowsMonotone(i' + 1, i, cols);
    assert (i + 1) * cols == i * cols + cols && (i' + 1) * cols == i' * cols + cols;
  }

  datatype TurboCompressed = TurboCompressed(data: seq<Byte>, shape: Shape, bits: nat, vecBytes: nat)

  // ---- Buffers as sequences of equal slots ---------------------------------------

  /** The size of n slots of w bytes, which is also where slot n starts. */
  function Extent(n: nat, w: nat): nat {
    n * w
  }

  /** Slot v starts behind the slots before it and ends inside the buffer. */
  lemma ExtentStep(n: nat, v: nat, w: nat)
    requires v < n
    ensures Extent(0, w) == 0 && Extent(v + 1, w) == Extent(v, w) + w <= Extent(n, w)
  {
  }

  /** A buffer of n slots of w bytes, slot by slot. */
  function Slots(data: seq<Byte>, w: nat, n: nat): (r: seq<seq<Byte>>)
    requires |data| == Extent(n, w)
    ensures |r| == n && forall v :: 0 <= v < n ==> |r[v]| == w
  {
    if n == 0 then []
    else
      ExtentStep(n, n - 1, w);
      Slots(data[..|data| - w], w, n - 1) + [data[|data| - w..]]
  }

  lemma SlotsExtend(data: seq<Byte>, x: seq<Byte>, w: nat, n: nat)
    requires |data| == Extent(n, w) && |x| == w
    ensures |data + x| == Extent(n + 1, w)
    ensures Slots(data + x, w, n + 1) == Slots(data, w, n) + [x]
  {
  }

  lemma ConcatExtend(parts: seq<seq<Byte>>, x: seq<Byte>)
    ensures Concat(parts + [x]) == Concat(parts) + x
  {
  }

  lemma {:induction false} SlotsOfConcat(parts: seq<seq<Byte>>, w: nat)
    requires forall v :: 0 <= v < |parts| ==> |parts[v]| == w
    ensures |Concat(parts)| == Extent(|parts|, w)
    ensures Slots(Concat(parts), w, |parts|) == parts
  {
    hide Slots;
    if |parts| > 0 {
      var front, x := parts[..|parts| - 1], parts[|parts| - 1];
      SlotsOfConcat(front, w);
      assert parts == front + [x];
      ConcatExtend(front, x);
      SlotsExtend(Concat(front), x, w, |front|);
    } else {
      NoSlots(w);
    }
  }

  lemma NoSlots(w: nat)
    ensures Slots([], w, 0) == []
  {
  }

  /** Slot v sits at offset v * w, inside the buffer. */
  lemma {:induction false} SlotAt(data: seq<Byte>, w: nat, n: nat, v: nat)
    requires |data| == Extent(n, w) && v < n
    ensures Extent(v, w) + w <= |data|
    ensures Slots(data, w, n)[v] == data[Extent(v, w)..Extent(v, w) + w]
    decreases n
  {
    hide Extent;
    ExtentStep(n, v, w);
    ExtentStep(n, n - 1, w);
    if v < n - 1 {
      var front := data[..|data| - w];
      SlotAt(front, w, n - 1, v);
      assert front[Extent(v, w)..Extent(v, w) + w] == data[Extent(v, w)..Extent(v, w) + w];
    }
  }

  /** The output buffer starts with the slots written so far. */
  ghost predicate Filled(output: seq<Byte>, parts: seq<seq<Byte>>, w: nat) {
    Extent(|parts|, w) <= |output| && output[..Extent(|parts|, w)] == Concat(parts)
  }

  lemma NothingFilled(output: seq<Byte>, w: nat)
    ensures Filled(output, [], w)
  {
    assert Concat<Byte>([]) == [];
  }

  /** Writing slot v behind the slots before it. */
  lemma NextSlot(after: seq<Byte>, before: seq<Byte>, parts: seq<seq<Byte>>, part: seq<Byte>, w: nat, offset: nat)
    requires Filled(before, parts, w) && offset == Extent(|parts|, w) && |part| == w && offset + w <= |before|
    requires after == before[..offset] + part + before[offset + w..]
    ensures |after| == |before| && Filled(after, parts + [part], w)
  {
    hide Concat, Extent;
    ExtentStep(|parts| + 1, |parts|, w);
    PrefixOfWrite(after, before, offset, part);
    ConcatExtend(parts, part);
  }

  lemma AllFilled(output: seq<Byte>, parts: seq<seq<Byte>>, w: nat)
    requires Filled(output, parts, w) && |output| == Extent(|parts|, w)
    requires forall v :: 0 <= v < |parts| ==> |parts[v]| == w
    ensures Slots(output, w, |parts|) == parts
  {
    hide Concat, Slots, Extent;
    SlotsOfConcat(parts, w);
    assert output[..|output|] == output;
  }

  lemma PrefixOfWrite(after: seq<Byte>, before: seq<Byte>, offset: nat, part: seq<Byte>)
    requires offset + |part| <= |before|
    requires after == before[..offset] + part + before[offset + |part|..]
    ensures |after| == |before| && after[..offset + |part|] == before[..offset] + part
  {
  }

  /** A buffer that holds `part` at `offset` and is unchanged elsewhere. */
  lemma WrittenInto(after: seq<Byte>, before: seq<Byte>, offset: nat, part: seq<Byte>)
    requires offset + |part| <= |before| == |after|
    requires forall k :: 0 <= k < |part| ==> after[offset + k] == part[k]
    requires forall k :: 0 <= k < offset || offset + |part| <= k < |after| ==> after[k] == before[k]
    ensures after == before[..offset] + part + before[offset + |part|..]
  {
  }

  /** `copy_from_slice` into the buffer. */
  method CopyInto(output: array<Byte>, offset: nat, source: seq<Byte>)
    requires offset + |source| <= output.Length
    modifies output
    ensures output[..] == old(output[..offset]) + source + old(output[offset + |source|..])
  {
    ghost var before := output[..];
    for i := 0 to |source|
      invariant forall k :: 0 <= k < i ==> output[offset + k] == source[k]
      invariant forall k :: 0 <= k < offset || offset + i <= k < output.Length ==> output[k] == old(output[k])
    {
      output[offset + i] := source[i];
    }
    WrittenInto(output[..], before, offset, source);
  }

  // ---- Writing one vector --------------------------------------------------------

  /** Pack one group, padded with zeros to a whole block. */
  method PackGroup(group: seq<Byte>, bits: nat) returns (packed: seq<Byte>)
    requires |group| <= BLOCK_SIZE && IsBitWidth(bits)
    ensures packed == Packed(FirstBlock(group), bits)
  {
    hide Packed;
    var block := new Byte[32](_ => 0);
    for i := 0 to |group|
      invariant forall k :: 0 <= k < i ==> block[k] == group[k]
      invariant forall k :: i <= k < 32 ==> block[k] == 0
    {
      block[i] := group[i];
    }
    assert block[..] == FirstBlock(group);
    if bits == 3 {
      packed := Pack3Bit(block[..]);
    } else {
      packed := Pack4Bit(block[..]);
    }
  }

  lemma PackAllStep(indices: seq<Byte>, bits: nat, k: nat)
    requires IsBitWidth(bits) && k < |indices|
    ensures var next := Min(k + BLOCK_SIZE, |indices|);
            PackAll(indices[k..], bits) == Packed(FirstBlock(indices[k..next]), bits) + PackAll(indices[next..], bits)
  {
    hide Packed;
    var next := Min(k + BLOCK_SIZE, |indices|);
    assert FirstBlock(indices[k..]) == FirstBlock(indices[k..next]);
    assert RestAfterBlock(indices[k..]) == indices[next..];
  }

  /** The packing loop: groups of 32 go to consecutive places from `start` on. */
  method PackIndices(output: array<Byte>, start: nat, indices: seq<Byte>, bits: nat)
    requires IsBitWidth(bits) && start + |PackAll(indices, bits)| <= output.Length
    modifies output
    ensures output[..] == old(output[..start]) + PackAll(indices, bits)
                        + old(output[start + |PackAll(indices, bits)|..])
  {
    hide Packed, PackAll, FirstBlock;
    ghost var before := output[..];
    ghost var all := PackAll(indices, bits);
    var packOffset := start;
    var k := 0;
    assert indices[0..] == indices;
    while k < |indices|
      invariant k <= |indices|
      invariant start <= packOffset <= output.Length
      invariant packOffset + |PackAll(indices[k..], bits)| == start + |all|
      invariant output[..packOffset] + PackAll(indices[k..], bits) == before[..start] + all
      invariant output[packOffset..] == before[packOffset..]
      decreases |indices| - k
    {
      var next := Min(k + BLOCK_SIZE, |indices|);
      PackAllStep(indices, bits, k);
      var packed := PackGroup(indices[k..next], bits);
      ghost var y := output[..];
      CopyInto(output, packOffset, packed);
      assert output[..packOffset + |packed|] == y[..packOffset] + packed;
      assert output[packOffset + |packed|..] == y[packOffset..][|packed|..];
      packOffset := packOffset + |packed|;
      k := next;
    }
    assert PackAll(indices[|indices|..], bits) == [] by { NothingToPack(bits); assert indices[|indices|..] == []; }
    assert output[..] == output[..packOffset] + output[packOffset..];
  }

  lemma NothingToPack(bits: nat)
    requires IsBitWidth(bits)
    ensures PackAll([], bits) == []
  {
  }

  /** Step 4: the nearest centroid of every entry. */
  method QuantizeEntries(cb: Codebook, y: Vec) returns (indices: seq<Byte>)
    requires WellFormed(cb)
    ensures |indices| == |y|
    ensures forall i :: 0 <= i < |y| ==> indices[i] == Nearest(cb.centroids, y[i])
  {
    indices := [];
    for i := 0 to |y|
      invariant |indices| == i
      invariant forall k :: 0 <= k < i ==> indices[k] == Nearest(cb.centroids, y[k])
    {
      var idx := NearestIndex(cb, y[i]);
      indices := indices + [idx];
    }
  }

  /** The body of the loop in `quantize`. */
  method WriteVector(output: array<Byte>, outOffset: nat, bytes: seq<Byte>,
                     bits: nat, codebook: Codebook, rotation: RotationContext, num: Numerics)
    requires IsSqrt(num.sqrt) && IsBitWidth(bits) && ValidRotation(rotation) && |bytes| == 2 * rotation.headDim
    requires codebook == CodebookFor(num, bits, rotation.headDim)
    requires outOffset + VecBytes(bits, rotation.headDim) <= output.Length
    modifies output
    ensures output[..] == old(output[..outOffset]) + EncodedVector(num, bits, rotation, bytes)
                        + old(output[outOffset + VecBytes(bits, rotation.headDim)..])
  {
    hide IsSqrt, IsPowerOfTwo, PackAll, Forward, Nearest, New, IsSigns, Holds;
    ghost var before := output[..];
    var x := ReadReals(num, bytes);
    var norm := Norm(num, x);
    var normalized := Divide(x, SafeNorm(norm));
    var rotated := RotateForward(normalized, rotation.signs, num.sqrt);
    PowersOfTwo(rotation.headDim);
    NewIsWellFormed(num.sqrt, bits, rotation.headDim);
    var indices := QuantizeEntries(codebook, rotated);
    assert indices == ChosenIndices(num, bits, rotation, x);
    var norm16 := num.fromReal(norm);
    CopyInto(output, outOffset, [norm16.0, norm16.1]);
    ghost var mid := output[..];
    PackIndices(output, outOffset + 2, indices, bits);
    WrittenInTurn(output[..], mid, before, outOffset, [norm16.0, norm16.1], PackAll(indices, bits));
  }

  /** Two writes, one behind the other, are one. */
  lemma WrittenInTurn(after: seq<Byte>, mid: seq<Byte>, before: seq<Byte>, offset: nat, first: seq<Byte>,
                      second: seq<Byte>)
    requires offset + |first| + |second| <= |before|
    requires mid == before[..offset] + first + before[offset + |first|..]
    requires after == mid[..offset + |first|] + second + mid[offset + |first| + |second|..]
    ensures after == before[..offset] + (first + second) + before[offset + |first| + |second|..]
  {
    assert mid[..offset + |first|] == before[..offset] + first;
    assert mid[offset + |first|..] == before[offset + |first|..];
  }

  /** `quantize`: slot v of the result is the compressed form of slot v of the input. */
  method Quantize(data: seq<Byte>, shape: Shape, bits: nat, rotation: RotationContext, num: Numerics)
    returns (out: TurboCompressed)
    requires IsSqrt(num.sqrt) && IsBitWidth(bits) && ValidRotation(rotation)
    requires |data| == Extent(VectorCount(shape), 2 * shape.d)
    requires shape.d == rotation.headDim
    ensures out.shape == shape && out.bits == bits && out.vecBytes == VecBytes(bits, shape.d)
    ensures |out.data| == Extent(VectorCount(shape), out.vecBytes)
    ensures forall v :: 0 <= v < VectorCount(shape) ==>
              Slots(out.data, out.vecBytes, VectorCount(shape))[v]
              == EncodedVector(num, bits, rotation, Slots(data, 2 * shape.d, VectorCount(shape))[v])
  {
    hide IsSqrt, IsPowerOfTwo, EncodedVector, Slots, VecBytes, IsSigns, VectorCount, Holds, Filled,
      Extent;
    var d, n, vb := shape.d, VectorCount(shape), VecBytes(bits, shape.d);
    var codebook := CodebookFor(num, bits, d);
    var output := new Byte[Extent(n, vb)](_ => 0);
    ghost var parts: seq<seq<Byte>> := [];
    ghost var input := Slots(data, 2 * d, n);
    NothingFilled(output[..], vb);
    for v := 0 to n
      invariant |parts| == v
      invariant forall u :: 0 <= u < v ==> parts[u] == EncodedVector(num, bits, rotation, input[u])
      invariant Filled(output[..], parts, vb)
    {
      SlotAt(data, 2 * d, n, v);
      ExtentStep(n, v, vb);
      var outOffset, byteOffset := Extent(v, vb), Extent(v, 2 * d);
      ghost var before, code := output[..], EncodedVector(num, bits, rotation, input[v]);
      WriteVector(output, outOffset, data[byteOffset..byteOffset + 2 * d], bits, codebook, rotation, num);
      NextSlot(output[..], before, parts, code, vb, outOffset);
      parts := parts + [code];
    }
    AllFilled(output[..], parts, vb);
    out := TurboCompressed(output[..], shape, bits, vb);
  }

  // ---- Reading -------------------------------------------------------------------

  /** From `offset` on there are n packed groups. */
  ghost predicate HasGroups(code: seq<Byte>, offset: nat, bits: nat, n: nat) {
    IsBitWidth(bits) && offset <= |code| && |code[offset..]| == n * PackedBytes(bits)
  }

  /** The indices in those groups. */
  ghost function GroupsFrom(code: seq<Byte>, offset: nat, bits: nat, n: nat): (r: seq<Byte>)
    requires HasGroups(code, offset, bits, n)
    ensures |r| == n * BLOCK_SIZE
  {
    UnpackAll(code[offset..], bits, n)
  }

  lemma FirstGroup(code: seq<Byte>, offset: nat, bits: nat, n: nat)
    requires HasGroups(code, offset, bits, n) && n > 0
    ensures IsBitWidth(bits)
    ensures var next := offset + PackedBytes(bits);
            && next <= |code| && HasGroups(code, next, bits, n - 1)
            && GroupsFrom(code, offset, bits, n)
               == Unpacked(code[offset..next], bits) + GroupsFrom(code, next, bits, n - 1)
  {
    hide UnpackAll, Unpacked;
    var data, w := code[offset..], PackedBytes(bits);
    UnpackAllStep(data, bits, n);
    assert data[..w] == code[offset..offset + w] && data[w..] == code[offset + w..];
  }

  lemma NoGroupLeft(code: seq<Byte>, offset: nat, bits: nat)
    requires HasGroups(code, offset, bits, 0)
    ensures GroupsFrom(code, offset, bits, 0) == []
  {
    NothingToUnpack(code[offset..], bits);
  }

  /** The whole code: two bytes of norm, then the groups of the indices. */
  lemma CodeGroups(code: seq<Byte>, bits: nat, headDim: nat)
    requires IsBitWidth(bits) && |code| == VecBytes(bits, headDim)
    ensures HasGroups(code, 2, bits, Groups(headDim)) && headDim <= |GroupsFrom(code, 2, bits, Groups(headDim))|
    ensures StoredIndices(code, bits, headDim) == GroupsFrom(code, 2, bits, Groups(headDim))[..headDim]
  {
  }

  /** Step 2 of `dequantize`: unpack every group, then cut to the head dimension. */
  method ReadIndices(code: seq<Byte>, bits: nat, headDim: nat) returns (indices: seq<Byte>)
    requires IsBitWidth(bits) && |code| == VecBytes(bits, headDim)
    ensures indices == StoredIndices(code, bits, headDim)
  {
    hide Unpacked, HasGroups, GroupsFrom, StoredIndices, VecBytes, Groups;
    var nGroups, w := Groups(headDim), PackedBytes(bits);
    CodeGroups(code, bits, headDim);
    var all: seq<Byte> := [];
    var packOffset: nat := 2;
    for g := 0 to nGroups
      invariant HasGroups(code, packOffset, bits, nGroups - g)
      invariant all + GroupsFrom(code, packOffset, bits, nGroups - g) == GroupsFrom(code, 2, bits, nGroups)
    {
      FirstGroup(code, packOffset, bits, nGroups - g);
      var group;
      if bits == 3 {
        group := Unpack3Bit(code[packOffset..packOffset + w]);
      } else {
        group := Unpack4Bit(code[packOffset..packOffset + w]);
      }
      ghost var rest := GroupsFrom(code, packOffset + w, bits, nGroups - g - 1);
      assert all + (group + rest) == (all + group) + rest;
      all := all + group;
      packOffset := packOffset + w;
    }
    NoGroupLeft(code, packOffset, bits);
    assert all + [] == all;
    indices := all[..headDim];
  }

  /** Step 4: the norm correction, in place. */
  method CorrectNorm(recon: array<real>, norm: real, num: Numerics)
    modifies recon
    ensures recon[..] == Rescaled(num, old(recon[..]), norm)
  {
    hide Dot, Times;
    ghost var before := recon[..];
    var reconNorm := Norm(num, recon[..]);
    if reconNorm > TINY {
      var scale := norm / reconNorm;
      for i := 0 to recon.Length
        invariant forall k :: 0 <= k < i ==> recon[k] == Times(scale, before[k])
        invariant forall k :: i <= k < recon.Length ==> recon[k] == before[k]
      {
        TimesCommutes(recon[i], scale);
        recon[i] := Times(recon[i], scale);
      }
      assert recon[..] == Scale(scale, before);
    }
  }

  /** Steps 1 to 5 for one compressed vector. */
  method DecodeVector(code: seq<Byte>, bits: nat, codebook: Codebook, rotation: RotationContext, num: Numerics)
    returns (recovered: Vec)
    requires IsSqrt(num.sqrt) && IsBitWidth(bits) && ValidRotation(rotation)
    requires |code| == VecBytes(bits, rotation.headDim)
    requires codebook == CodebookFor(num, bits, rotation.headDim)
    ensures recovered == DecodedReals(num, bits, rotation, code)
  {
    hide IsSqrt, IsPowerOfTwo, IsSigns, StoredIndices, Rescaled, Inverse, VecBytes, New, Pow2;
    var norm := StoredNorm(num, code);
    var indices := ReadIndices(code, bits, rotation.headDim);
    var centroids := codebook.centroids;
    var recon := new real[|indices|](i requires 0 <= i < |indices| => centroids[indices[i]]);
    assert recon[..] == Lookup(centroids, indices);
    CorrectNorm(recon, norm, num);
    recovered := RotateInverse(recon[..], rotation.signs, num.sqrt);
  }

  /** `f32_to_bf16_bytes` into the slice from `offset` on. */
  method WriteRealsInto(output: array<Byte>, offset: nat, values: Vec, num: Numerics)
    requires offset + 2 * |values| <= output.Length
    modifies output
    ensures output[..] == old(output[..offset]) + WriteReals(num, values) + old(output[offset + 2 * |values|..])
  {
    ghost var before := output[..];
    for i := 0 to |values|
      invariant forall k :: 0 <= k < 2 * i ==> output[offset + k] == RealByte(num, values, k)
      invariant forall k :: 0 <= k < offset || offset + 2 * i <= k < output.Length ==> output[k] == old(output[k])
    {
      var b := num.fromReal(values[i]);
      assert RealByte(num, values, i * 2) == b.0 && RealByte(num, values, i * 2 + 1) == b.1;
      output[offset + i * 2] := b.0;
      output[offset + i * 2 + 1] := b.1;
    }
    WrittenInto(output[..], before, offset, WriteReals(num, values));
  }

  /** The body of the loop in `dequantize`. */
  method WriteDecoded(output: array<Byte>, outOffset: nat, code: seq<Byte>, bits: nat, codebook: Codebook,
                      rotation: RotationContext, num: Numerics)
    requires IsSqrt(num.sqrt) && IsBitWidth(bits) && ValidRotation(rotation)
    requires |code| == VecBytes(bits, rotation.headDim)
    requires codebook == CodebookFor(num, bits, rotation.headDim)
    requires outOffset + 2 * rotation.headDim <= output.Length
    modifies output
    ensures output[..] == old(output[..outOffset]) + DecodedVector(num, bits, rotation, code)
                        + old(output[outOffset + 2 * rotation.headDim..])
  {
    hide IsSqrt, IsPowerOfTwo, IsSigns, DecodedReals, VecBytes, WriteReals, New;
    var recovered := DecodeVector(code, bits, codebook, rotation, num);
    WriteRealsInto(output, outOffset, recovered, num);
  }

  /** `dequantize`: slot v of the result is the decoding of slot v of the compressed data. */
  method Dequantize(compressed: TurboCompressed, rotation: RotationContext, num: Numerics)
    returns (bytes: seq<Byte>)
    requires IsSqrt(num.sqrt) && IsBitWidth(compressed.bits) && ValidRotation(rotation)
    requires compressed.shape.d == rotation.headDim
    requires compressed.vecBytes == VecBytes(compressed.bits, rotation.headDim)
    requires |compressed.data| == Extent(VectorCount(compressed.shape), compressed.vecBytes)
    ensures |bytes| == Extent(VectorCount(compressed.shape), 2 * rotation.headDim)
    ensures forall v :: 0 <= v < VectorCount(compressed.shape) ==>
              Slots(bytes, 2 * rotation.headDim, VectorCount(compressed.shape))[v]
              == DecodedVector(num, compressed.bits, rotation,
                               Slots(compressed.data, compressed.vecBytes, VectorCount(compressed.shape))[v])
  {
    hide IsSqrt, IsPowerOfTwo, DecodedVector, Slots, VecBytes, IsSigns, VectorCount, Filled, Extent;
    var bits, d, n := compressed.bits, rotation.headDim, VectorCount(compressed.shape);
    var vb, w := compressed.vecBytes, 2 * d;
    var codebook := CodebookFor(num, bits, d);
    var output := new Byte[Extent(n, w)](_ => 0);
    ghost var parts: seq<seq<Byte>> := [];
    ghost var input := Slots(compressed.data, vb, n);
    NothingFilled(output[..], w);
    for v := 0 to n
      invariant |parts| == v
      invariant forall u :: 0 <= u < v ==> parts[u] == DecodedVector(num, bits, rotation, input[u])
      invariant Filled(output[..], parts, w)
    {
      SlotAt(compressed.data, vb, n, v);
      ExtentStep(n, v, w);
      var inOffset, outOffset := Extent(v, vb), Extent(v, w);
      ghost var before, part := output[..], DecodedVector(num, bits, rotation, input[v]);
      WriteDecoded(output, outOffset, compressed.data[inOffset..inOffset + vb], bits, codebook, rotation, num);
      NextSlot(output[..], before, parts, part, w, outOffset);
      parts := parts + [part];
    }
    AllFilled(output[..], parts, w);
    bytes := output[..];
  }

  /** What comes back for the input vector x, before rounding to bf16: its codeword, stretched. */
  ghost function Recovered(num: Numerics, bits: nat, rotation: RotationContext, x: Vec): (r: Vec)
    requires IsSqrt(num.sqrt) && IsBitWidth(bits) && ValidRotation(rotation) && |x| == rotation.headDim
    ensures |r| == |x|
  {
    var word := Codeword(num, bits, rotation, x);
    CodewordIsLong(num, bits, rotation, x);
    Scale(RoundedNorm(num, x) / Norm(num, word), word)
  }

  /** Compressing and decompressing a tensor gives, vector by vector, the optimal codeword stretched to the
      rounded norm of the input. */
  method RoundTrip(data: seq<Byte>, shape: Shape, bits: nat, rotation: RotationContext, num: Numerics)
    returns (bytes: seq<Byte>)
    requires IsSqrt(num.sqrt) && IsBitWidth(bits) && ValidRotation(rotation)
    requires |data| == Extent(VectorCount(shape), 2 * shape.d)
    requires shape.d == rotation.headDim
    ensures |bytes| == |data|
    ensures forall v :: 0 <= v < VectorCount(shape) ==>
              Slots(bytes, 2 * shape.d, VectorCount(shape))[v]
              == WriteReals(num, Recovered(num, bits, rotation,
                   ReadReals(num, Slots(data, 2 * shape.d, VectorCount(shape))[v])))
  {
    hide IsSqrt, IsPowerOfTwo, DecodedReals, EncodedVector, Slots, VecBytes, IsSigns, VectorCount, WriteReals, Holds,
      Norm, ReadReals, Codeword, Recovered;
    var compressed := Quantize(data, shape, bits, rotation, num);
    bytes := Dequantize(compressed, rotation, num);
    ghost var n := VectorCount(shape);
    ghost var input, codes := Slots(data, 2 * shape.d, n), Slots(compressed.data, compressed.vecBytes, n);
    forall v | 0 <= v < n
      ensures Slots(bytes, 2 * shape.d, n)[v]
           == WriteReals(num, Recovered(num, bits, rotation, ReadReals(num, input[v])))
    {
      RecoveredVector(num, bits, rotation, ReadReals(num, input[v]), codes[v]);
    }
  }

  lemma RecoveredVector(num: Numerics, bits: nat, rotation: RotationContext, x: Vec, code: seq<Byte>)
    requires IsSqrt(num.sqrt) && IsBitWidth(bits) && ValidRotation(rotation) && |x| == rotation.headDim
    requires |code| == VecBytes(bits, rotation.headDim) && Holds(num, bits, rotation, code, x)
    ensures DecodedVector(num, bits, rotation, code) == WriteReals(num, Recovered(num, bits, rotation, x))
  {
    hide IsSqrt, IsPowerOfTwo, DecodedReals, VecBytes, IsSigns, WriteReals, Holds, Norm, Codeword, Dot, Times, Scale;
    VectorRoundTrip(num, bits, rotation, x, code);
  }
}
