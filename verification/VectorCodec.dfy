/** turboquant/src/quantize.rs, one vector: the compressed form, its decoding, and what the pair guarantees. */
module VectorCodec {
  import opened Vectors
  import opened Walsh
  import opened Wht
  import opened Bits
  import opened Pack
  import opened Codebooks

  /** The square root, and the two directions of the bf16 format (its rounding is left abstract). */
  datatype Numerics = Numerics(sqrt: real -> real, toReal: (Byte, Byte) -> real, fromReal: real -> (Byte, Byte))

  /** `RotationContext`. */
  datatype RotationContext = RotationContext(signs: Vec, headDim: nat)

  ghost predicate ValidRotation(rotation: RotationContext) {
    IsPowerOfTwo(rotation.headDim) && |rotation.signs| == rotation.headDim && IsSigns(rotation.signs)
  }

  /** `RotationContext::new`. */
  method NewRotation(headDim: nat, seed: nat) returns (rotation: RotationContext)
    requires IsPowerOfTwo(headDim)
    ensures ValidRotation(rotation) && rotation.headDim == headDim
    ensures rotation.signs == Pattern(headDim, seed)
  {
    var signs := GenerateSigns(headDim, seed);
    rotation := RotationContext(signs, headDim);
  }

  // ---- Index groups --------------------------------------------------------------

  /** Number of blocks of 32 needed for n indices (ceiling division). */
  function Groups(n: nat): nat {
    (n + (BLOCK_SIZE - 1)) / BLOCK_SIZE
  }

  /** `vec_compressed_bytes`. */
  function VecBytes(bits: nat, headDim: nat): (n: nat)
    requires IsBitWidth(bits)
    ensures n >= 2
  {
    2 + Groups(headDim) * PackedBytes(bits)
  }

  function Zeros(n: nat): (r: seq<Byte>)
    ensures |r| == n
  {
    seq(n, _ => 0)
  }

  /** The first group of indices, filled up with zeros to a whole block. */
  function FirstBlock(indices: seq<Byte>): (r: seq<Byte>)
    ensures |r| == BLOCK_SIZE
  {
    if |indices| >= BLOCK_SIZE then indices[..BLOCK_SIZE] else indices + Zeros(BLOCK_SIZE - |indices|)
  }

  function RestAfterBlock(indices: seq<Byte>): seq<Byte> {
    if |indices| >= BLOCK_SIZE then indices[BLOCK_SIZE..] else []
  }

  /** All indices packed group by group. */
  function PackAll(indices: seq<Byte>, bits: nat): (r: seq<Byte>)
    requires IsBitWidth(bits)
    ensures |r| == Groups(|indices|) * PackedBytes(bits)
    decreases |indices|
  {
    if |indices| == 0 then []
    else
      GroupsStep(|indices|, PackedBytes(bits));
      Packed(FirstBlock(indices), bits) + PackAll(RestAfterBlock(indices), bits)
  }

  function UnpackAll(data: seq<Byte>, bits: nat, n: nat): (r: seq<Byte>)
    requires IsBitWidth(bits) && |data| == n * PackedBytes(bits)
    ensures |r| == n * BLOCK_SIZE
    decreases n
  {
    if n == 0 then []
    else
      assert n * PackedBytes(bits) == PackedBytes(bits) + (n - 1) * PackedBytes(bits);
      Unpacked(data[..PackedBytes(bits)], bits) + UnpackAll(data[PackedBytes(bits)..], bits, n - 1)
  }

  lemma GroupsStep(n: nat, w: nat)
    requires n > 0
    ensures Groups(n) == 1 + Groups(if n >= BLOCK_SIZE then n - BLOCK_SIZE else 0)
    ensures Groups(n) * w == w + Groups(if n >= BLOCK_SIZE then n - BLOCK_SIZE else 0) * w
    ensures n <= Groups(n) * BLOCK_SIZE
  {
  }

  lemma FirstBlockInRange(indices: seq<Byte>, bits: nat)
    requires AreDigits(indices, bits)
    ensures AreDigits(FirstBlock(indices), bits) && AreDigits(RestAfterBlock(indices), bits)
  {
  }

  lemma UnpackAllStep(data: seq<Byte>, bits: nat, n: nat)
    requires IsBitWidth(bits) && n > 0 && |data| == n * PackedBytes(bits)
    ensures PackedBytes(bits) <= |data| && |data[PackedBytes(bits)..]| == (n - 1) * PackedBytes(bits)
    ensures UnpackAll(data, bits, n)
         == Unpacked(data[..PackedBytes(bits)], bits) + UnpackAll(data[PackedBytes(bits)..], bits, n - 1)
  {
  }

  lemma NothingToUnpack(data: seq<Byte>, bits: nat)
    requires IsBitWidth(bits) && |data| == 0 * PackedBytes(bits)
    ensures UnpackAll(data, bits, 0) == []
  {
  }

  lemma PackAllFront(indices: seq<Byte>, bits: nat)
    requires IsBitWidth(bits) && |indices| > 0
    ensures var w, block, rest := PackedBytes(bits), FirstBlock(indices), RestAfterBlock(indices);
            && w <= |PackAll(indices, bits)| && Groups(|rest|) == Groups(|indices|) - 1
            && PackAll(indices, bits)[..w] == Packed(block, bits)
            && PackAll(indices, bits)[w..] == PackAll(rest, bits)
  {
    hide Packed;
    GroupsStep(|indices|, PackedBytes(bits));
  }

  /** Padding the last group, packing, unpacking and cutting to length loses nothing. */
  lemma {:induction false} UnpackAllOfPackAll(indices: seq<Byte>, bits: nat)
    requires IsBitWidth(bits) && AreDigits(indices, bits)
    ensures |indices| <= Groups(|indices|) * BLOCK_SIZE
    ensures UnpackAll(PackAll(indices, bits), bits, Groups(|indices|))[..|indices|] == indices
    decreases |indices|
  {
    hide Packed, Unpacked, AreDigits, PackAll, UnpackAll, Groups;
    if |indices| > 0 {
      var block, rest := FirstBlock(indices), RestAfterBlock(indices);
      GroupsStep(|indices|, PackedBytes(bits));
      FirstBlockInRange(indices, bits);
      PackUnpackBijection(block, Packed(block, bits), bits);
      UnpackAllOfPackAll(rest, bits);
      PackAllFront(indices, bits);
      UnpackAllStep(PackAll(indices, bits), bits, Groups(|indices|));
      CutTogether(block, UnpackAll(PackAll(rest, bits), bits, Groups(|rest|)), indices);
    }
  }

  lemma CutTogether(block: seq<Byte>, unpacked: seq<Byte>, indices: seq<Byte>)
    requires |indices| > 0 && block == FirstBlock(indices)
    requires |RestAfterBlock(indices)| <= |unpacked|
    requires unpacked[..|RestAfterBlock(indices)|] == RestAfterBlock(indices)
    ensures |indices| <= |block + unpacked| && (block + unpacked)[..|indices|] == indices
  {
  }

  lemma {:induction false} UnpackAllInRange(data: seq<Byte>, bits: nat, n: nat)
    requires IsBitWidth(bits) && |data| == n * PackedBytes(bits)
    ensures AreDigits(UnpackAll(data, bits, n), bits)
    decreases n
  {
    hide AreDigits, UnpackAll, Number, Digits;
    if n == 0 {
      NothingToUnpack(data, bits);
      DigitsJoin([], [], bits);
    } else {
      UnpackAllStep(data, bits, n);
      var w := PackedBytes(bits);
      UnpackAllInRange(data[w..], bits, n - 1);
      DigitsAreDigits(Number(data[..w], 8), bits, BLOCK_SIZE);
      DigitsJoin(Unpacked(data[..w], bits), UnpackAll(data[w..], bits, n - 1), bits);
    }
  }

  lemma DigitsJoin(a: seq<Byte>, b: seq<Byte>, bits: nat)
    ensures AreDigits([], bits) && (AreDigits(a, bits) && AreDigits(b, bits) ==> AreDigits(a + b, bits))
  {
  }

  // ---- Encoding ------------------------------------------------------------------

  /** `bf16_bytes_to_f32`. */
  function ReadReals(num: Numerics, bytes: seq<Byte>): (r: Vec)
    requires |bytes| % 2 == 0
    ensures |r| == |bytes| / 2
    ensures forall i :: 0 <= i < |r| ==> r[i] == num.toReal(bytes[2 * i], bytes[2 * i + 1])
  {
    seq(|bytes| / 2, i requires 0 <= i < |bytes| / 2 => num.toReal(bytes[2 * i], bytes[2 * i + 1]))
  }

  /** `l2_norm`. */
  function Norm(num: Numerics, x: Vec): real {
    num.sqrt(Dot(x, x))
  }

  const TINY: real := 0.0000000001

  function SafeNorm(norm: real): (r: real)
    ensures r > 0.0
  {
    if norm > TINY then norm else 1.0
  }

  function Divide(x: Vec, d: real): (r: Vec)
    requires d != 0.0
    ensures |r| == |x|
  {
    seq(|x|, i requires 0 <= i < |x| => x[i] / d)
  }

  /** The input divided by its safe norm. */
  function Normalized(num: Numerics, x: Vec): (r: Vec)
    ensures |r| == |x|
  {
    Divide(x, SafeNorm(Norm(num, x)))
  }

  /** What normalising is: above the threshold the result has length one, and stretching it by the norm of x gives x
      back; below it x is left alone. */
  lemma NormalizedLaw(num: Numerics, x: Vec)
    requires IsSqrt(num.sqrt)
    ensures var n, r := num.sqrt(Dot(x, x)), Normalized(num, x);
            if n > 0.0000000001 then Dot(r, r) == 1.0 && Scale(n, r) == x else r == x
  {
    hide IsSqrt, Dot, Times;
    var n, r := num.sqrt(Dot(x, x)), Normalized(num, x);
    if n > 0.0000000001 {
      assert Times(n, n) == Dot(x, x) by { RootSquared(num.sqrt, x); }
      forall i | 0 <= i < |x| ensures r[i] == Times(1.0 / n, x[i]) && Times(n, r[i]) == x[i] {
        QuotientLaw(x[i], n);
      }
      assert r == Scale(1.0 / n, x) && Scale(n, r) == x;
      DotScale(1.0 / n, x, 1.0 / n, x);
      InverseSquared(n);
    } else {
      forall i | 0 <= i < |x| ensures r[i] == x[i] {}
      assert r == x;
    }
  }

  lemma RootSquared(sqrt: real -> real, x: Vec)
    requires IsSqrt(sqrt)
    ensures Times(sqrt(Dot(x, x)), sqrt(Dot(x, x))) == Dot(x, x)
  {
    DotNonNegative(x);
  }

  lemma QuotientLaw(v: real, n: real)
    requires n > 0.0
    ensures v / n == Times(1.0 / n, v) && Times(n, v / n) == v
  {
  }

  lemma InverseSquared(n: real)
    requires n > 0.0
    ensures Times(Times(1.0 / n, 1.0 / n), Times(n, n)) == 1.0
  {
    var q := 1.0 / n;
    assert q * n == 1.0;
    assert q * q * (n * n) == (q * n) * (q * n);
  }

  function CodebookFor(num: Numerics, bits: nat, headDim: nat): (cb: Codebook)
    requires IsSqrt(num.sqrt) && IsBitWidth(bits) && IsPowerOfTwo(headDim)
    ensures |cb.centroids| == Pow2(bits) <= 16
  {
    New(num.sqrt, bits, headDim)
  }

  /** The codebook of the pipeline is scaled for the head dimension. */
  lemma CodebookForScaling(num: Numerics, bits: nat, headDim: nat, i: nat)
    requires IsSqrt(num.sqrt) && IsBitWidth(bits) && IsPowerOfTwo(headDim) && i < Pow2(bits)
    ensures var c, t := CodebookFor(num, bits, headDim).centroids[i], NormCentroids(bits)[i];
            Times(Times(c, c), headDim as real) == Times(t, t) && (c > 0.0 <==> t > 0.0)
  {
    hide IsSqrt, New, Times, Pow2, NormCentroids;
    PowersOfTwo(headDim);
    CentroidScaling(num.sqrt, bits, headDim, i);
  }

  /** The indices chosen for a vector. */
  ghost function ChosenIndices(num: Numerics, bits: nat, rotation: RotationContext, x: Vec): (r: seq<Byte>)
    requires IsSqrt(num.sqrt) && IsBitWidth(bits) && ValidRotation(rotation) && |x| == rotation.headDim
    ensures |r| == |x|
    ensures forall i :: 0 <= i < |r| ==> r[i] < Pow2(bits)
  {
    var cb := CodebookFor(num, bits, rotation.headDim);
    var rotated := Forward(num.sqrt, Normalized(num, x), rotation.signs);
    seq(|x|, i requires 0 <= i < |x| => Nearest(cb.centroids, rotated[i]))
  }

  // ---- Decoding ------------------------------------------------------------------

  /** The norm stored in a compressed vector. */
  function StoredNorm(num: Numerics, code: seq<Byte>): real
    requires |code| >= 2
  {
    num.toReal(code[0], code[1])
  }

  /** The indices stored in a compressed vector. */
  function StoredIndices(code: seq<Byte>, bits: nat, headDim: nat): (r: seq<Byte>)
    requires IsBitWidth(bits) && |code| == VecBytes(bits, headDim)
    ensures |r| == headDim
    ensures forall i :: 0 <= i < |r| ==> r[i] < Pow2(bits)
  {
    assert headDim <= Groups(headDim) * BLOCK_SIZE by { if headDim > 0 { GroupsStep(headDim, 0); } }
    UnpackAllInRange(code[2..], bits, Groups(headDim));
    UnpackAll(code[2..], bits, Groups(headDim))[..headDim]
  }

  /** The compressed vector `code` holds exactly the bf16 norm of x and the indices chosen for x. */
  ghost predicate Holds(num: Numerics, bits: nat, rotation: RotationContext, code: seq<Byte>, x: Vec)
    requires IsSqrt(num.sqrt) && IsBitWidth(bits) && ValidRotation(rotation) && |x| == rotation.headDim
    requires |code| == VecBytes(bits, rotation.headDim)
  {
    && (code[0], code[1]) == num.fromReal(Norm(num, x))
    && StoredIndices(code, bits, rotation.headDim) == ChosenIndices(num, bits, rotation, x)
  }

  /** Norm bytes, then packed indices. */
  function Layout(norm: (Byte, Byte), indices: seq<Byte>, bits: nat): (r: seq<Byte>)
    requires IsBitWidth(bits)
    ensures |r| == VecBytes(bits, |indices|)
  {
    [norm.0, norm.1] + PackAll(indices, bits)
  }

  /** Reading a compressed vector gives back exactly the norm bytes and the indices laid out in it. */
  lemma ReadBack(norm: (Byte, Byte), indices: seq<Byte>, bits: nat)
    requires IsBitWidth(bits) && forall i :: 0 <= i < |indices| ==> indices[i] < Pow2(bits)
    ensures var code := Layout(norm, indices, bits);
            (code[0], code[1]) == norm && StoredIndices(code, bits, |indices|) == indices
  {
    hide PackAll, UnpackAll, Pow2;
    UnpackAllOfPackAll(indices, bits);
    assert Layout(norm, indices, bits)[2..] == PackAll(indices, bits);
  }

  /** The compressed form of one vector. */
  ghost function EncodedVector(num: Numerics, bits: nat, rotation: RotationContext, bytes: seq<Byte>): (r: seq<Byte>)
    requires IsSqrt(num.sqrt) && IsBitWidth(bits) && ValidRotation(rotation) && |bytes| == 2 * rotation.headDim
    ensures |r| == VecBytes(bits, rotation.headDim)
    ensures Holds(num, bits, rotation, r, ReadReals(num, bytes))
  {
    var x := ReadReals(num, bytes);
    var norm, indices := num.fromReal(Norm(num, x)), ChosenIndices(num, bits, rotation, x);
    ReadBack(norm, indices, bits);
    Layout(norm, indices, bits)
  }

  /** Centroid lookup. */
  function Lookup(c: seq<real>, indices: seq<Byte>): (r: Vec)
    requires forall i :: 0 <= i < |indices| ==> indices[i] < |c|
    ensures |r| == |indices|
    ensures forall i :: 0 <= i < |r| ==> r[i] == c[indices[i]]
  {
    seq(|indices|, i requires 0 <= i < |indices| => c[indices[i]])
  }

  /** Norm correction. */
  function Rescaled(num: Numerics, recon: Vec, norm: real): (r: Vec)
    ensures |r| == |recon|
  {
    if Norm(num, recon) > TINY then Scale(norm / Norm(num, recon), recon) else recon
  }

  /** The decoded vector before it is rounded to bf16. */
  ghost function DecodedReals(num: Numerics, bits: nat, rotation: RotationContext, code: seq<Byte>): (r: Vec)
    requires IsSqrt(num.sqrt) && IsBitWidth(bits) && ValidRotation(rotation)
    requires |code| == VecBytes(bits, rotation.headDim)
    ensures |r| == rotation.headDim
  {
    var cb := CodebookFor(num, bits, rotation.headDim);
    var indices := StoredIndices(code, bits, rotation.headDim);
    Inverse(num.sqrt, Rescaled(num, Lookup(cb.centroids, indices), StoredNorm(num, code)), rotation.signs)
  }

  /** Byte i of the bf16 encoding of x. */
  function RealByte(num: Numerics, x: Vec, i: nat): Byte
    requires i < 2 * |x|
  {
    if i % 2 == 0 then num.fromReal(x[i / 2]).0 else num.fromReal(x[i / 2]).1
  }

  /** `f32_to_bf16_bytes`. */
  function WriteReals(num: Numerics, x: Vec): (r: seq<Byte>)
    ensures |r| == 2 * |x|
  {
    seq<Byte>(2 * |x|, i requires 0 <= i < 2 * |x| => RealByte(num, x, i))
  }

  /** Value i is written as one pair of bytes, and reading what was written gives every value after one trip
      through bf16. */
  lemma ReadOfWrite(num: Numerics, x: Vec, i: nat)
    requires i < |x|
    ensures (WriteReals(num, x)[2 * i], WriteReals(num, x)[2 * i + 1]) == num.fromReal(x[i])
    ensures ReadReals(num, WriteReals(num, x))[i] == num.toReal(num.fromReal(x[i]).0, num.fromReal(x[i]).1)
  {
    assert 2 * i / 2 == i && (2 * i + 1) / 2 == i;
    assert RealByte(num, x, 2 * i) == num.fromReal(x[i]).0 && RealByte(num, x, 2 * i + 1) == num.fromReal(x[i]).1;
  }

  ghost function DecodedVector(num: Numerics, bits: nat, rotation: RotationContext, code: seq<Byte>): (r: seq<Byte>)
    requires IsSqrt(num.sqrt) && IsBitWidth(bits) && ValidRotation(rotation)
    requires |code| == VecBytes(bits, rotation.headDim)
    ensures |r| == 2 * rotation.headDim
  {
    WriteReals(num, DecodedReals(num, bits, rotation, code))
  }

  // ---- What the pipeline guarantees ----------------------------------------------

  /** Any other choice of indices, looked up and rotated back, is at least as far from the
      normalised input as the chosen one. */
  lemma ChosenCodewordIsOptimal(num: Numerics, bits: nat, rotation: RotationContext, x: Vec, other: seq<Byte>)
    requires IsSqrt(num.sqrt) && IsBitWidth(bits) && ValidRotation(rotation) && |x| == rotation.headDim
    requires |other| == |x| && forall i :: 0 <= i < |other| ==> other[i] < Pow2(bits)
    ensures var c := CodebookFor(num, bits, rotation.headDim).centroids;
            var chosen := ChosenIndices(num, bits, rotation, x);
            var target := Normalized(num, x);
            Dist2(Inverse(num.sqrt, Lookup(c, chosen), rotation.signs), target)
            <= Dist2(Inverse(num.sqrt, Lookup(c, other), rotation.signs), target)
  {
    hide IsSqrt, IsPowerOfTwo, Forward, Inverse, Normalized, Pow2, Nearest, New;
    var c := CodebookFor(num, bits, rotation.headDim).centroids;
    var chosen := ChosenIndices(num, bits, rotation, x);
    var target := Normalized(num, x);
    var y := Forward(num.sqrt, target, rotation.signs);
    var a, b := Lookup(c, chosen), Lookup(c, other);
    InverseDistance(num.sqrt, a, target, rotation.signs);
    InverseDistance(num.sqrt, b, target, rotation.signs);
    forall i | 0 <= i < |y| ensures Times(a[i] - y[i], a[i] - y[i]) <= Times(b[i] - y[i], b[i] - y[i]) {
      NearestIsLeast(c, y[i], other[i]);
      SquareOfAbs(y[i] - a[i], y[i] - b[i]);
    }
    Dist2Pointwise(y, a, b);
  }

  lemma SquareOfAbs(p: real, q: real)
    requires Abs(p) <= Abs(q)
    ensures Times(-p, -p) <= Times(-q, -q)
  {
  }

  // ---- Norm correction -----------------------------------------------------------

  lemma SquareAtLeast(s: real, t: real, m: real)
    requires m >= 0.0 && (t <= -m || m <= t)
    ensures Times(Times(s, t), Times(s, t)) >= Times(Times(s, s), Times(m, m))
  {
  }

  /** Whatever the indices, the looked-up vector is at least as long as the smallest table entry. */
  lemma LookupIsLong(num: Numerics, bits: nat, headDim: nat, indices: seq<Byte>)
    requires IsSqrt(num.sqrt) && IsBitWidth(bits) && IsPowerOfTwo(headDim) && |indices| == headDim
    requires forall i :: 0 <= i < |indices| ==> indices[i] < Pow2(bits)
    ensures var recon := Lookup(CodebookFor(num, bits, headDim).centroids, indices);
            Dot(recon, recon) >= Times(SmallestEntry(bits), SmallestEntry(bits))
  {
    hide IsSqrt, IsPowerOfTwo, Times, Normalizer, Dot, Pow2, NormCentroids, SmallestEntry;
    var c := CodebookFor(num, bits, headDim).centroids;
    var recon := Lookup(c, indices);
    PowersOfTwo(headDim);
    var s, m := Normalizer(num.sqrt, headDim), SmallestEntry(bits);
    var bound := Times(Times(s, s), Times(m, m));
    forall i | 0 <= i < |recon| ensures Times(recon[i], recon[i]) >= bound {
      TableFloor(bits, indices[i]);
      SquareAtLeast(s, NormCentroids(bits)[indices[i]], m);
    }
    DotLowerBound(recon, bound);
    NormalizerSquared(num.sqrt, headDim);
    CancelCount(headDim as real, Times(s, s), Times(m, m));
  }

  lemma CancelCount(n: real, p: real, q: real)
    requires Times(p, n) == 1.0
    ensures Times(n, Times(p, q)) == q
  {
  }

  lemma LargeRoot(sqrt: real -> real, v: real)
    requires IsSqrt(sqrt) && v >= 0.01
    ensures sqrt(v) > TINY && Times(sqrt(v), sqrt(v)) == v
  {
    assert sqrt(v) >= 0.0 && Times(sqrt(v), sqrt(v)) == v;
    if sqrt(v) <= TINY {
      SquareMonotone(sqrt(v), TINY);
      assert false;
    }
  }

  lemma TimesAtLeast(m: real)
    requires m >= 0.1
    ensures Times(m, m) >= 0.01
  {
  }

  lemma QuotientSquared(norm: real, r: real)
    requires r > 0.0
    ensures Times(Times(norm / r, norm / r), Times(r, r)) == Times(norm, norm)
  {
  }

  /** The guard of the norm correction always holds, so the corrected vector has the stored norm. */
  lemma RescaledNorm(num: Numerics, recon: Vec, norm: real)
    requires IsSqrt(num.sqrt) && Dot(recon, recon) >= 0.01
    ensures Norm(num, recon) > TINY
    ensures Dot(Rescaled(num, recon, norm), Rescaled(num, recon, norm)) == Times(norm, norm)
  {
    hide IsSqrt, Dot, Times, Scale;
    LargeRoot(num.sqrt, Dot(recon, recon));
    var r := Norm(num, recon);
    DotScale(norm / r, recon, norm / r, recon);
    QuotientSquared(norm, r);
  }

  /** Before rounding to bf16, every decoded vector has exactly the stored norm, whatever the stored indices. */
  lemma DecodedNorm(num: Numerics, bits: nat, rotation: RotationContext, code: seq<Byte>)
    requires IsSqrt(num.sqrt) && IsBitWidth(bits) && ValidRotation(rotation)
    requires |code| == VecBytes(bits, rotation.headDim)
    ensures var r := DecodedReals(num, bits, rotation, code);
            Dot(r, r) == Times(StoredNorm(num, code), StoredNorm(num, code))
  {
    hide IsSqrt, IsPowerOfTwo, Dot, Times, StoredIndices, Lookup, Rescaled, SmallestEntry, New, Inverse, Pow2;
    var indices := StoredIndices(code, bits, rotation.headDim);
    var recon := Lookup(CodebookFor(num, bits, rotation.headDim).centroids, indices);
    LookupIsLong(num, bits, rotation.headDim, indices);
    TimesAtLeast(SmallestEntry(bits));
    RescaledNorm(num, recon, StoredNorm(num, code));
    var y := Rescaled(num, recon, StoredNorm(num, code));
    RotationDot(num.sqrt, y, y, rotation.signs);
  }

  /** A stored norm of at least zero is the length of the decoded vector; a stored zero decodes to zero. */
  lemma DecodedLength(num: Numerics, bits: nat, rotation: RotationContext, code: seq<Byte>)
    requires IsSqrt(num.sqrt) && IsBitWidth(bits) && ValidRotation(rotation)
    requires |code| == VecBytes(bits, rotation.headDim)
    ensures StoredNorm(num, code) >= 0.0 ==>
              Norm(num, DecodedReals(num, bits, rotation, code)) == StoredNorm(num, code)
    ensures StoredNorm(num, code) == 0.0 ==>
              forall i :: 0 <= i < rotation.headDim ==> DecodedReals(num, bits, rotation, code)[i] == 0.0
  {
    hide IsSqrt, IsPowerOfTwo, Dot, DecodedReals, VecBytes;
    DecodedNorm(num, bits, rotation, code);
    var w := StoredNorm(num, code);
    if w >= 0.0 {
      SqrtUnique(num.sqrt, w);
      if w == 0.0 { DotZero(DecodedReals(num, bits, rotation, code)); }
    }
  }

  /** A zero vector comes back as zero, given that bf16 represents zero. */
  lemma ZeroVectorRoundTrip(num: Numerics, bits: nat, rotation: RotationContext, bytes: seq<Byte>)
    requires IsSqrt(num.sqrt) && IsBitWidth(bits) && ValidRotation(rotation) && |bytes| == 2 * rotation.headDim
    requires num.toReal(num.fromReal(0.0).0, num.fromReal(0.0).1) == 0.0
    requires forall i :: 0 <= i < rotation.headDim ==> num.toReal(bytes[2 * i], bytes[2 * i + 1]) == 0.0
    ensures forall i :: 0 <= i < rotation.headDim ==>
              DecodedReals(num, bits, rotation, EncodedVector(num, bits, rotation, bytes))[i] == 0.0
  {
    hide IsPowerOfTwo, Dot, DecodedReals, EncodedVector, VecBytes, StoredIndices, ChosenIndices, IsSqrt;
    var x := ReadReals(num, bytes);
    ZeroDot(x);
    SqrtUnique(num.sqrt, 0.0);
    assert Times(0.0, 0.0) == 0.0;
    var code := EncodedVector(num, bits, rotation, bytes);
    assert StoredNorm(num, code) == 0.0;
    DecodedLength(num, bits, rotation, code);
  }

  lemma {:induction false} ZeroDot(x: Vec)
    requires forall i :: 0 <= i < |x| ==> x[i] == 0.0
    ensures Dot(x, x) == 0.0
  {
    if |x| > 0 { ZeroDot(x[1..]); }
  }

  // ---- The round trip of one vector ----------------------------------------------

  /** The point of the codebook grid, rotated back, that stands for x. */
  ghost function Codeword(num: Numerics, bits: nat, rotation: RotationContext, x: Vec): (r: Vec)
    requires IsSqrt(num.sqrt) && IsBitWidth(bits) && ValidRotation(rotation) && |x| == rotation.headDim
    ensures |r| == |x|
  {
    var c := CodebookFor(num, bits, rotation.headDim).centroids;
    Inverse(num.sqrt, Lookup(c, ChosenIndices(num, bits, rotation, x)), rotation.signs)
  }

  /** The norm of x after a trip through bf16. */
  function RoundedNorm(num: Numerics, x: Vec): real {
    var b := num.fromReal(Norm(num, x));
    num.toReal(b.0, b.1)
  }

  lemma TransformScale(sqrt: real -> real, q: real, x: Vec)
    requires IsSqrt(sqrt) && IsPowerOfTwo(|x|)
    ensures Transform(sqrt, Scale(q, x)) == Scale(q, Transform(sqrt, x))
  {
    hide *;
    TransformIsScaled(sqrt, x);
    TransformIsScaled(sqrt, Scale(q, x));
    var s := Normalizer(sqrt, |x|);
    HadamardScale(q, x);
    ScaleScale(s, q, Hadamard(x));
    ScaleScale(q, s, Hadamard(x));
    TimesCommutes(s, q);
  }

  lemma InverseScale(sqrt: real -> real, q: real, y: Vec, signs: Vec)
    requires IsSqrt(sqrt) && IsPowerOfTwo(|y|) && |y| == |signs|
    ensures Inverse(sqrt, Scale(q, y), signs) == Scale(q, Inverse(sqrt, y, signs))
  {
    hide IsSqrt, IsPowerOfTwo, Transform, Scale, Mul;
    TransformScale(sqrt, q, y);
    MulScale(q, Transform(sqrt, y), signs);
  }

  lemma MulScale(q: real, t: Vec, signs: Vec)
    requires |t| == |signs|
    ensures Mul(Scale(q, t), signs) == Scale(q, Mul(t, signs))
  {
    forall i | 0 <= i < |t| ensures Times(Times(q, t[i]), signs[i]) == Times(q, Times(t[i], signs[i])) {}
  }

  /** Stretching a codeword is always possible: none is close to zero. */
  lemma CodewordIsLong(num: Numerics, bits: nat, rotation: RotationContext, x: Vec)
    requires IsSqrt(num.sqrt) && IsBitWidth(bits) && ValidRotation(rotation) && |x| == rotation.headDim
    ensures Norm(num, Codeword(num, bits, rotation, x)) > TINY
  {
    hide IsSqrt, IsPowerOfTwo, Norm, Dot, Times, ChosenIndices, Lookup, New, Inverse, Pow2, SmallestEntry;
    var c := CodebookFor(num, bits, rotation.headDim).centroids;
    var recon := Lookup(c, ChosenIndices(num, bits, rotation, x));
    LookupIsLong(num, bits, rotation.headDim, ChosenIndices(num, bits, rotation, x));
    TimesAtLeast(SmallestEntry(bits));
    RescaledNorm(num, recon, 1.0);
    SameNorm(num, rotation, recon);
  }

  /** Decoding a code that holds x, as the encoder's does, gives the optimal codeword for x, stretched to the
      bf16-rounded norm of x. */
  lemma VectorRoundTrip(num: Numerics, bits: nat, rotation: RotationContext, x: Vec, code: seq<Byte>)
    requires IsSqrt(num.sqrt) && IsBitWidth(bits) && ValidRotation(rotation) && |x| == rotation.headDim
    requires |code| == VecBytes(bits, rotation.headDim) && Holds(num, bits, rotation, code, x)
    ensures var word, r := Codeword(num, bits, rotation, x), DecodedReals(num, bits, rotation, code);
            && Norm(num, word) > TINY
            && r == Scale(RoundedNorm(num, x) / Norm(num, word), word)
            && Dot(r, r) == Times(RoundedNorm(num, x), RoundedNorm(num, x))
  {
    hide IsSqrt, IsPowerOfTwo, Norm, Dot, Times, StoredIndices, ChosenIndices, Lookup, New, Inverse, Pow2,
      VecBytes, SmallestEntry;
    var c := CodebookFor(num, bits, rotation.headDim).centroids;
    var recon := Lookup(c, ChosenIndices(num, bits, rotation, x));
    LookupIsLong(num, bits, rotation.headDim, ChosenIndices(num, bits, rotation, x));
    TimesAtLeast(SmallestEntry(bits));
    RescaledNorm(num, recon, StoredNorm(num, code));
    SameNorm(num, rotation, recon);
    InverseScale(num.sqrt, StoredNorm(num, code) / Norm(num, recon), recon, rotation.signs);
    DecodedNorm(num, bits, rotation, code);
  }

  lemma SameNorm(num: Numerics, rotation: RotationContext, y: Vec)
    requires IsSqrt(num.sqrt) && ValidRotation(rotation) && |y| == rotation.headDim
    ensures Norm(num, Inverse(num.sqrt, y, rotation.signs)) == Norm(num, y)
  {
    hide IsSqrt, IsPowerOfTwo, Dot, Inverse;
    RotationDot(num.sqrt, y, y, rotation.signs);
  }
}
