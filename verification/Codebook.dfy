/** turboquant/src/codebook.rs: the scalar quantizer. */
module Codebooks {
  import opened Vectors
  import opened Bits
  import opened Pack

  const TURBO3_CENTROIDS_NORM: seq<real> := [
    -2.1519449883, -1.3439085530, -0.7560047494, -0.2450939842,
    0.2450939842, 0.7560047494, 1.3439085530, 2.1519449883
  ]

  const TURBO4_CENTROIDS_NORM: seq<real> := [
    -2.7176670187, -2.0521380069, -1.6008024772, -1.2399589968,
    -0.9282446944, -0.6458753408, -0.3811782363, -0.1260469448,
    0.1260469448, 0.3811782363, 0.6458753408, 0.9282446944,
    1.2399589968, 1.6008024772, 2.0521380069, 2.7176670187
  ]

  datatype Codebook = Codebook(centroids: seq<real>, boundaries: seq<real>, bits: nat)

  function NormCentroids(bits: nat): (r: seq<real>)
    requires IsBitWidth(bits)
    ensures |r| == Pow2(bits) <= 16
  {
    assert Pow2(3) == 8 && Pow2(4) == 16;
    if bits == 3 then TURBO3_CENTROIDS_NORM else TURBO4_CENTROIDS_NORM
  }

  /** `Codebook::new`: the table scaled by 1 / sqrt(d), and the midpoints between neighbours. */
  function New(sqrt: real -> real, bits: nat, headDim: nat): (cb: Codebook)
    requires IsSqrt(sqrt) && IsBitWidth(bits) && headDim > 0
    ensures |cb.centroids| == Pow2(bits) <= 16 && cb.bits == bits
  {
    var centroids := Scale(Normalizer(sqrt, headDim), NormCentroids(bits));
    Codebook(centroids, Midpoints(centroids), bits)
  }

  function Midpoints(c: seq<real>): (b: seq<real>)
    requires |c| > 0
  {
    seq(|c| - 1, i requires 0 <= i < |c| - 1 => (c[i] + c[i + 1]) * 0.5)
  }

  ghost predicate WellFormed(cb: Codebook) {
    && 0 < |cb.centroids| <= 256
    && (forall i, j :: 0 <= i < j < |cb.centroids| ==> cb.centroids[i] < cb.centroids[j])
    && cb.boundaries == Midpoints(cb.centroids)
  }

  function Abs(v: real): real {
    if v < 0.0 then -v else v
  }

  /** The brute-force quantizer: the first index whose centroid is at the least distance from v. */
  function Nearest(c: seq<real>, v: real): (k: nat)
    requires |c| > 0
    ensures k < |c|
  {
    if |c| == 1 then 0
    else
      var last := |c| - 1;
      var k := Nearest(c[..last], v);
      if Abs(v - c[last]) < Abs(v - c[k]) then last else k
  }

  lemma {:induction false} NearestIsLeast(c: seq<real>, v: real, j: nat)
    requires j < |c|
    ensures Abs(v - c[Nearest(c, v)]) <= Abs(v - c[j])
    ensures j < Nearest(c, v) ==> Abs(v - c[Nearest(c, v)]) < Abs(v - c[j])
  {
    var last := |c| - 1;
    if last > 0 {
      if j < last {
        NearestIsLeast(c[..last], v, j);
      }
    }
  }

  /** The two conditions name one index. */
  lemma NearestUnique(c: seq<real>, v: real, idx: nat)
    requires idx < |c|
    requires forall j :: 0 <= j < |c| ==> Abs(v - c[idx]) <= Abs(v - c[j])
    requires forall j :: 0 <= j < idx ==> Abs(v - c[idx]) < Abs(v - c[j])
    ensures idx == Nearest(c, v)
  {
  }

  /** `Codebook::nearest_index`: the early-exit scan of the boundaries finds the brute-force answer. */
  method NearestIndex(cb: Codebook, value: real) returns (idx: Byte)
    requires WellFormed(cb)
    ensures idx < |cb.centroids|
    ensures idx == Nearest(cb.centroids, value)
  {
    var k := 0;
    while k < |cb.boundaries|
      invariant 0 <= k <= |cb.boundaries|
      invariant forall i :: 0 <= i < k ==> value > cb.boundaries[i]
    {
      if value > cb.boundaries[k] {
        k := k + 1;
      } else {
        break;
      }
    }
    ScanStops(cb, value, k);
    idx := k;
  }

  lemma ScanStops(cb: Codebook, value: real, k: nat)
    requires WellFormed(cb) && k <= |cb.boundaries|
    requires forall i :: 0 <= i < k ==> value > cb.boundaries[i]
    requires k < |cb.boundaries| ==> value <= cb.boundaries[k]
    ensures k == Nearest(cb.centroids, value)
  {
    hide Nearest;
    var c := cb.centroids;
    forall j | 0 <= j < k ensures Abs(value - c[k]) < Abs(value - c[j]) {
      assert value > cb.boundaries[k - 1];
      assert c[j] <= c[k - 1];
    }
    forall j | k < j < |c| ensures Abs(value - c[k]) <= Abs(value - c[j]) {
      assert value <= cb.boundaries[k];
      assert c[k + 1] <= c[j];
    }
    NearestUnique(c, value, k);
  }

  /** Every codebook the code builds is strictly increasing with midpoint boundaries. */
  lemma NewIsWellFormed(sqrt: real -> real, bits: nat, headDim: nat)
    requires IsSqrt(sqrt) && IsBitWidth(bits) && headDim > 0
    ensures WellFormed(New(sqrt, bits, headDim))
  {
    hide IsSqrt, Normalizer, Times, Pow2;
    NormalizerSquared(sqrt, headDim);
    var t, s := NormCentroids(bits), Normalizer(sqrt, headDim);
    TablesIncrease(bits);
    forall i, j | 0 <= i < j < |t| ensures Times(s, t[i]) < Times(s, t[j]) {
      TimesMonotone(s, t[i], t[j]);
    }
  }

  lemma TablesIncrease(bits: nat)
    requires IsBitWidth(bits)
    ensures var t := NormCentroids(bits); forall i, j :: 0 <= i < j < |t| ==> t[i] < t[j]
  {
  }

  lemma TimesMonotone(s: real, x: real, y: real)
    requires s > 0.0 && x < y
    ensures Times(s, x) < Times(s, y)
  {
  }

  /** The smallest magnitude in the table. */
  function SmallestEntry(bits: nat): (m: real)
    requires IsBitWidth(bits)
    ensures m >= 0.1
  {
    if bits == 3 then 0.2450939842 else 0.1260469448
  }

  /** It is the entry in the middle of the table, the smallest positive one. */
  lemma SmallestIsInTable(bits: nat)
    requires IsBitWidth(bits)
    ensures 0 < Pow2(bits) / 2 < |NormCentroids(bits)|
    ensures NormCentroids(bits)[Pow2(bits) / 2] == SmallestEntry(bits)
    ensures NormCentroids(bits)[Pow2(bits) / 2 - 1] == -SmallestEntry(bits)
  {
    assert Pow2(3) == 8 && Pow2(4) == 16;
  }

  lemma TableFloor(bits: nat, i: nat)
    requires IsBitWidth(bits) && i < Pow2(bits)
    ensures var t := NormCentroids(bits)[i];
            t <= -SmallestEntry(bits) || SmallestEntry(bits) <= t
  {
  }

  /** Centroids scale with 1 / sqrt(d): squared and multiplied by d they are the squared table entries. */
  lemma CentroidScaling(sqrt: real -> real, bits: nat, headDim: nat, i: nat)
    requires IsSqrt(sqrt) && IsBitWidth(bits) && headDim > 0 && i < Pow2(bits)
    ensures var c, t := New(sqrt, bits, headDim).centroids[i], NormCentroids(bits)[i];
            Times(Times(c, c), headDim as real) == Times(t, t) && (c > 0.0 <==> t > 0.0)
  {
    hide IsSqrt, Normalizer, Times, Pow2, NormCentroids;
    var s, t := Normalizer(sqrt, headDim), NormCentroids(bits)[i];
    NormalizerSquared(sqrt, headDim);
    SquareOfScaled(s, t, headDim as real);
    if t > 0.0 { TimesMonotone(s, 0.0, t); } else if t < 0.0 { TimesMonotone(s, t, 0.0); }
    TimesZero(s);
  }

  lemma SquareOfScaled(s: real, t: real, n: real)
    requires Times(Times(s, s), n) == 1.0
    ensures Times(Times(Times(s, t), Times(s, t)), n) == Times(t, t)
  {
  }

  lemma TimesZero(s: real)
    ensures Times(s, 0.0) == 0.0
  {
  }

  /** The codebook is symmetric around zero. */
  lemma CentroidsSymmetric(sqrt: real -> real, bits: nat, headDim: nat, i: nat)
    requires IsSqrt(sqrt) && IsBitWidth(bits) && headDim > 0 && i < Pow2(bits)
    ensures var c := New(sqrt, bits, headDim).centroids; c[i] == -c[|c| - 1 - i]
  {
    hide IsSqrt, Normalizer, Pow2, NormCentroids, Midpoints, Times;
    var t := NormCentroids(bits);
    TableSymmetric(bits, i);
    TimesNegated(Normalizer(sqrt, headDim), t[|t| - 1 - i]);
  }

  lemma TableSymmetric(bits: nat, i: nat)
    requires IsBitWidth(bits) && i < Pow2(bits)
    ensures var t := NormCentroids(bits); t[i] == -t[|t| - 1 - i]
  {
  }

  lemma TimesNegated(s: real, t: real)
    ensures Times(s, -t) == -Times(s, t)
  {
  }

  /** A centroid is quantized to itself. */
  lemma CentroidMapsToItself(cb: Codebook, i: nat)
    requires WellFormed(cb) && i < |cb.centroids|
    ensures Nearest(cb.centroids, cb.centroids[i]) == i
  {
    NearestUnique(cb.centroids, cb.centroids[i], i);
  }
}
