/** turboquant/src/wht.rs: the in-place transform, the rotations and the sign pattern. */
module Wht {
  import opened Vectors
  import opened Walsh

  // ---- What the in-place loops compute -------------------------------------------

  /** n is a whole number of blocks of size h. */
  predicate Blocks(n: nat, h: nat) {
    n == 0 || (0 < h <= n && Blocks(n - h, h))
  }

  /** Every block of size h of x replaced by its own unnormalised transform. */
  ghost function BlockwiseHadamard(x: Vec, h: nat): (r: Vec)
    requires IsPowerOfTwo(h) && Blocks(|x|, h)
    ensures |r| == |x|
  {
    if |x| == 0 then [] else Hadamard(x[..h]) + BlockwiseHadamard(x[h..], h)
  }

  /** The normalised transform. */
  ghost function Transform(sqrt: real -> real, x: Vec): (r: Vec)
    requires IsSqrt(sqrt) && IsPowerOfTwo(|x|)
    ensures |r| == |x|
  {
    Scale(Normalizer(sqrt, |x|), Hadamard(x))
  }

  // ---- The loops -----------------------------------------------------------------

  lemma {:induction false} BlocksUpTo(m: nat, h: nat)
    requires IsPowerOfTwo(m) && IsPowerOfTwo(h) && h <= m
    ensures Blocks(m, h)
    decreases m
  {
    if h < m {
      HalfStillCovers(m, h);
      BlocksUpTo(m / 2, h);
      BlocksAdd(m / 2, m / 2, h);
    } else {
      assert Blocks(0, h);
    }
  }

  /** A power of two above another one is at least twice as large. */
  lemma {:induction false} HalfStillCovers(m: nat, h: nat)
    requires IsPowerOfTwo(m) && IsPowerOfTwo(h) && h < m
    ensures IsPowerOfTwo(m / 2) && h <= m / 2 && m == 2 * (m / 2)
    decreases m
  {
    if h > 1 {
      HalfStillCovers(m / 2, h / 2);
    }
  }

  lemma {:induction false} BlocksAdd(a: nat, b: nat, h: nat)
    requires Blocks(a, h) && Blocks(b, h)
    ensures Blocks(a + b, h)
  {
    if a != 0 {
      BlocksAdd(a - h, b, h);
    }
  }

  lemma BlockwisePrepend(p: Vec, rest: Vec)
    requires IsPowerOfTwo(|p|) && Blocks(|rest|, |p|)
    ensures Blocks(|p + rest|, |p|)
    ensures BlockwiseHadamard(p + rest, |p|) == Hadamard(p) + BlockwiseHadamard(rest, |p|)
  {
  }

  lemma {:induction false} BlockwiseAppend(x: Vec, y: Vec, h: nat)
    requires IsPowerOfTwo(h) && Blocks(|x|, h) && Blocks(|y|, h)
    ensures Blocks(|x + y|, h)
    ensures BlockwiseHadamard(x + y, h) == BlockwiseHadamard(x, h) + BlockwiseHadamard(y, h)
    decreases |x|
  {
    hide Hadamard, IsPowerOfTwo, BlockwiseHadamard;
    BlocksAdd(|x|, |y|, h);
    if |x| == 0 {
      assert x + y == y && BlockwiseHadamard(x, h) == [];
    } else {
      var p, rest := x[..h], x[h..];
      BlockwiseAppend(rest, y, h);
      BlockwisePrepend(p, rest);
      BlockwisePrepend(p, rest + y);
      assert x == p + rest && x + y == p + (rest + y);
      var u, v, w := Hadamard(p), BlockwiseHadamard(rest, h), BlockwiseHadamard(y, h);
      assert u + (v + w) == (u + v) + w;
    }
  }

  lemma BlockwiseOne(x: Vec)
    requires IsPowerOfTwo(|x|)
    ensures Blocks(|x|, |x|) && BlockwiseHadamard(x, |x|) == Hadamard(x)
  {
    assert Blocks(0, |x|);
    assert x[..|x|] == x && x[|x|..] == [];
  }

  lemma {:induction false} BlockwiseUnit(x: Vec)
    ensures Blocks(|x|, 1) && BlockwiseHadamard(x, 1) == x
  {
    if |x| != 0 {
      BlockwiseUnit(x[1..]);
      assert x == x[..1] + x[1..];
    }
  }

  /** One pass of the innermost loop: the 2h entries from i on go through a butterfly. */
  method ButterflyInPlace(x: array<real>, i: nat, h: nat)
    requires i + 2 * h <= x.Length
    modifies x
    ensures x[..] == Merged(old(x[..]), i, h)
  {
    ghost var y := x[..];
    for j := i to i + h
      invariant forall t :: i <= t < j ==> x[t] == y[t] + y[t + h]
      invariant forall t :: i + h <= t < j + h ==> x[t] == y[t - h] - y[t]
      invariant forall t :: 0 <= t < i || j <= t < i + h || j + h <= t < x.Length ==> x[t] == y[t]
    {
      var a := x[j];
      var b := x[j + h];
      x[j] := a + b;
      x[j + h] := a - b;
    }
    MergedPointwise(x[..], y, i, h);
  }

  /** y with the two blocks of size h from i on replaced by their butterfly. */
  ghost function Merged(y: Vec, i: nat, h: nat): (r: Vec)
    requires i + 2 * h <= |y|
    ensures |r| == |y|
  {
    y[..i] + Butterfly(y[i..i + h], y[i + h..i + 2 * h]) + y[i + 2 * h..]
  }

  lemma MergedPointwise(x: Vec, y: Vec, i: nat, h: nat)
    requires i + 2 * h <= |y| == |x|
    requires forall t :: i <= t < i + h ==> x[t] == y[t] + y[t + h]
    requires forall t :: i + h <= t < i + 2 * h ==> x[t] == y[t - h] - y[t]
    requires forall t :: 0 <= t < i || i + 2 * h <= t < |x| ==> x[t] == y[t]
    ensures x == Merged(y, i, h)
  {
    hide Merged;
    forall t | 0 <= t < |x| ensures x[t] == Merged(y, i, h)[t] {
      MergedAt(y, i, h, t);
    }
  }

  /** One entry of the merged vector. */
  lemma MergedAt(y: Vec, i: nat, h: nat, t: nat)
    requires i + 2 * h <= |y| && t < |y|
    ensures Merged(y, i, h)[t] ==
            if i <= t < i + h then y[t] + y[t + h] else if i + h <= t < i + 2 * h then y[t - h] - y[t] else y[t]
  {
  }

  /** Progress inside the stage of width h: blocks before i have size 2h, the rest size h. */
  ghost predicate StageProgress(y: Vec, done: Vec, todo: Vec, h: nat) {
    && IsPowerOfTwo(h) && IsPowerOfTwo(2 * h)
    && Blocks(|done|, 2 * h) && Blocks(|todo|, h) && Blocks(|todo|, 2 * h)
    && y == BlockwiseHadamard(done, 2 * h) + BlockwiseHadamard(todo, h)
  }

  /** A butterfly on the next two blocks u, v moves them to the finished side. */
  lemma StageStep(y: Vec, done: Vec, u: Vec, v: Vec, rest: Vec, h: nat)
    requires |u| == |v| == h
    requires StageProgress(y, done, u + (v + rest), h)
    ensures |y| == |done| + 2 * h + |rest|
    ensures StageProgress(Merged(y, |done|, h), done + (u + v), rest, h)
  {
    hide Hadamard, BlockwiseHadamard, IsPowerOfTwo, Butterfly;
    assert Blocks(|v + rest|, h) && Blocks(|rest|, h) && Blocks(|rest|, 2 * h) by {
      assert |u + (v + rest)| - h == |v + rest| && |v + rest| - h == |rest|;
    }
    BlockwisePrepend(u, v + rest);
    BlockwisePrepend(v, rest);
    HadamardJoin(u, v);
    BlockwiseOne(u + v);
    BlockwiseAppend(done, u + v, 2 * h);
    MergeParts(BlockwiseHadamard(done, 2 * h), Hadamard(u), Hadamard(v), BlockwiseHadamard(rest, h));
  }

  lemma MergeParts(f: Vec, p: Vec, q: Vec, r: Vec)
    requires |p| == |q|
    ensures Merged(f + (p + (q + r)), |f|, |p|) == f + Butterfly(p, q) + r
  {
    hide Butterfly, Add, Sub;
    var y := f + (p + (q + r));
    assert y[..|f|] == f && y[|f|..|f| + |p|] == p;
    assert y[|f| + |p|..|f| + 2 * |p|] == q && y[|f| + 2 * |p|..] == r;
  }

  /** `i` is where the outer of the two inner loops stands in the stage of width h over input x. */
  ghost predicate StageAt(y: Vec, x: Vec, i: nat, h: nat) {
    i <= |x| == |y| && StageProgress(y, x[..i], x[i..], h)
  }

  lemma StageBegins(x: Vec, h: nat)
    requires IsPowerOfTwo(h) && IsPowerOfTwo(|x|) && h < |x| && Blocks(|x|, h)
    ensures h > 0 && IsPowerOfTwo(2 * h) && 2 * h <= |x| && Blocks(|x|, 2 * h)
    ensures StageAt(BlockwiseHadamard(x, h), x, 0, h)
  {
    hide Hadamard;
    HalfStillCovers(|x|, h);
    assert IsPowerOfTwo(2 * h) by { assert 2 * h / 2 == h; }
    BlocksUpTo(|x|, 2 * h);
    assert x[..0] == [] && x[0..] == x;
  }

  lemma StageAdvances(y: Vec, x: Vec, i: nat, h: nat)
    requires StageAt(y, x, i, h) && i < |x|
    ensures i + 2 * h <= |x| && StageAt(Merged(y, i, h), x, i + 2 * h, h)
  {
    hide Hadamard, BlockwiseHadamard, IsPowerOfTwo, Butterfly;
    assert |x[..i]| == i && |x[i..]| == |x| - i;
    var u, v, rest := x[i..i + h], x[i + h..i + 2 * h], x[i + 2 * h..];
    assert x[i..] == u + (v + rest);
    assert x[..i + 2 * h] == x[..i] + (u + v);
    StageStep(y, x[..i], u, v, rest, h);
  }

  lemma StageEnds(y: Vec, x: Vec, h: nat)
    requires StageAt(y, x, |x|, h) && IsPowerOfTwo(2 * h) && Blocks(|x|, 2 * h)
    ensures y == BlockwiseHadamard(x, 2 * h)
  {
    assert x[..|x|] == x && x[|x|..] == [];
  }

  /** The stage of width h: afterwards every aligned block of 2h holds the transform of that block of x0. */
  method Stage(x: array<real>, h: nat, ghost x0: Vec)
    requires IsPowerOfTwo(h) && IsPowerOfTwo(x.Length) && h < x.Length == |x0| && Blocks(x.Length, h)
    requires x[..] == BlockwiseHadamard(x0, h)
    modifies x
    ensures IsPowerOfTwo(2 * h) && 2 * h <= x.Length && Blocks(x.Length, 2 * h)
    ensures x[..] == BlockwiseHadamard(x0, 2 * h)
  {
    hide *;
    var n := x.Length;
    StageBegins(x0, h);
    var i := 0;
    while i < n
      invariant i <= n && StageAt(x[..], x0, i, h)
    {
      StageAdvances(x[..], x0, i, h);
      ButterflyInPlace(x, i, h);
      i := i + h * 2;
    }
    StageEnds(x[..], x0, h);
  }

  /** `wht_inplace`. */
  method TransformInPlace(x: array<real>, sqrt: real -> real)
    requires IsSqrt(sqrt) && IsPowerOfTwo(x.Length)
    modifies x
    ensures x[..] == Transform(sqrt, old(x[..]))
  {
    hide IsPowerOfTwo, Hadamard, BlockwiseHadamard, Blocks, Scale, Normalizer, IsSqrt;
    var n := x.Length;
    ghost var x0 := x[..];
    BlockwiseUnit(x0);
    PowersOfTwo(n);
    var h := 1;
    while h < n
      invariant 1 <= h <= n && IsPowerOfTwo(h) && Blocks(n, h)
      invariant x[..] == BlockwiseHadamard(x0, h)
    {
      Stage(x, h, x0);
      h := h * 2;
    }
    BlockwiseOne(x0);
    Normalize(x, sqrt);
  }

  lemma PowersOfTwo(n: nat)
    requires IsPowerOfTwo(n)
    ensures n >= 1 && IsPowerOfTwo(1)
  {
  }

  /** The closing pass: every entry times 1 / sqrt(n). */
  method Normalize(x: array<real>, sqrt: real -> real)
    requires IsSqrt(sqrt) && x.Length > 0
    modifies x
    ensures x[..] == Scale(Normalizer(sqrt, x.Length), old(x[..]))
  {
    SqrtPositive(sqrt, x.Length as real);
    var scale := 1.0 / sqrt(x.Length as real);
    for i := 0 to x.Length
      invariant forall t :: 0 <= t < i ==> x[t] == Times(scale, old(x[t]))
      invariant forall t :: i <= t < x.Length ==> x[t] == old(x[t])
    {
      TimesCommutes(x[i], scale);
      x[i] := Times(x[i], scale);
    }
  }

  lemma TimesCommutes(x: real, y: real)
    ensures Times(x, y) == Times(y, x)
  {
  }

  // ---- What the transform is -----------------------------------------------------

  /** Entry k is the scaled signed sum of row k of the Walsh matrix. */
  lemma TransformEntry(sqrt: real -> real, x: Vec, k: nat)
    requires IsSqrt(sqrt) && IsPowerOfTwo(|x|) && k < |x|
    ensures Transform(sqrt, x)[k] == Times(Normalizer(sqrt, |x|), Row(k, 0, x))
  {
    HadamardIsWalshMatrix(x, k);
  }

  /** After the stage of width h, entry k of every aligned block of 2h is row k of the matrix on that block. */
  lemma {:induction false} BlockwiseEntry(x: Vec, h: nat, b: nat, k: nat)
    requires IsPowerOfTwo(h) && Blocks(|x|, h) && Blocks(b, h) && b < |x| && k < h
    ensures b + h <= |x|
    ensures BlockwiseHadamard(x, h)[b + k] == Row(k, 0, x[b..b + h])
    decreases b
  {
    hide Row, Hadamard, IsPowerOfTwo;
    if b == 0 {
      HadamardIsWalshMatrix(x[..h], k);
      assert x[0..h] == x[..h];
    } else {
      BlockwiseEntry(x[h..], h, b - h, k);
      assert x[h..][b - h..b] == x[b..b + h];
    }
  }

  /** The transform is its own inverse. */
  lemma TransformTwice(sqrt: real -> real, x: Vec)
    requires IsSqrt(sqrt) && IsPowerOfTwo(|x|)
    ensures Transform(sqrt, Transform(sqrt, x)) == x
  {
    hide *;
    PowersOfTwo(|x|);
    var s := Normalizer(sqrt, |x|);
    calc {
      Transform(sqrt, Transform(sqrt, x));
      { TransformIsScaled(sqrt, x); TransformIsScaled(sqrt, Transform(sqrt, x)); }
      Scale(s, Hadamard(Scale(s, Hadamard(x))));
      { HadamardScale(s, Hadamard(x)); }
      Scale(s, Scale(s, Hadamard(Hadamard(x))));
      { HadamardTwice(x); }
      Scale(s, Scale(s, Scale(|x| as real, x)));
      { ScaleScale(s, s, Scale(|x| as real, x)); ScaleScale(Times(s, s), |x| as real, x); }
      Scale(Times(Times(s, s), |x| as real), x);
      { NormalizerSquared(sqrt, |x|); ScaleOne(x); }
      x;
    }
  }

  lemma TransformIsScaled(sqrt: real -> real, x: Vec)
    requires IsSqrt(sqrt) && IsPowerOfTwo(|x|)
    ensures |x| > 0 && Transform(sqrt, x) == Scale(Normalizer(sqrt, |x|), Hadamard(x))
  {
  }

  lemma ScaleOne(x: Vec)
    ensures Scale(1.0, x) == x
  {
  }

  /** The transform keeps inner products, hence lengths and distances. */
  lemma TransformDot(sqrt: real -> real, x: Vec, y: Vec)
    requires IsSqrt(sqrt) && |x| == |y| && IsPowerOfTwo(|x|)
    ensures Dot(Transform(sqrt, x), Transform(sqrt, y)) == Dot(x, y)
  {
    hide *;
    TransformIsScaled(sqrt, x);
    TransformIsScaled(sqrt, y);
    var s := Normalizer(sqrt, |x|);
    HadamardDot(x, y);
    DotScale(s, Hadamard(x), s, Hadamard(y));
    NormalizerSquared(sqrt, |x|);
    TimesAssociates(Times(s, s), |x| as real, Dot(x, y));
  }

  lemma TimesAssociates(p: real, q: real, v: real)
    ensures Times(p, Times(q, v)) == Times(Times(p, q), v)
    ensures Times(1.0, v) == v
  {
  }

  lemma TransformSub(sqrt: real -> real, x: Vec, y: Vec)
    requires IsSqrt(sqrt) && |x| == |y| && IsPowerOfTwo(|x|)
    ensures Transform(sqrt, Sub(x, y)) == Sub(Transform(sqrt, x), Transform(sqrt, y))
  {
    hide *;
    TransformIsScaled(sqrt, x);
    TransformIsScaled(sqrt, y);
    TransformIsScaled(sqrt, Sub(x, y));
    HadamardLinear(x, y);
    ScaleSub(Normalizer(sqrt, |x|), Hadamard(x), Hadamard(y));
  }

  lemma ScaleSub(c: real, a: Vec, b: Vec)
    requires |a| == |b|
    ensures Scale(c, Sub(a, b)) == Sub(Scale(c, a), Scale(c, b))
  {
    forall i | 0 <= i < |a| ensures Times(c, a[i] - b[i]) == Times(c, a[i]) - Times(c, b[i]) {}
  }

  // ---- The rotations -------------------------------------------------------------

  predicate IsSigns(signs: Vec) {
    forall i :: 0 <= i < |signs| ==> signs[i] == 1.0 || signs[i] == -1.0
  }

  ghost function Forward(sqrt: real -> real, x: Vec, signs: Vec): (r: Vec)
    requires IsSqrt(sqrt) && IsPowerOfTwo(|x|) && |x| == |signs|
    ensures |r| == |x|
  {
    Transform(sqrt, Mul(x, signs))
  }

  ghost function Inverse(sqrt: real -> real, y: Vec, signs: Vec): (r: Vec)
    requires IsSqrt(sqrt) && IsPowerOfTwo(|y|) && |y| == |signs|
    ensures |r| == |y|
  {
    Mul(Transform(sqrt, y), signs)
  }

  /** `rotate_forward`. */
  method RotateForward(x: Vec, signs: Vec, sqrt: real -> real) returns (y: Vec)
    requires IsSqrt(sqrt) && IsPowerOfTwo(|x|) && |x| == |signs|
    ensures y == Forward(sqrt, x, signs)
  {
    hide IsPowerOfTwo, Transform, IsSqrt;
    var a := new real[|x|](i requires 0 <= i < |x| => Times(x[i], signs[i]));
    assert a[..] == Mul(x, signs);
    TransformInPlace(a, sqrt);
    y := a[..];
  }

  /** `rotate_inverse`. */
  method RotateInverse(y: Vec, signs: Vec, sqrt: real -> real) returns (x: Vec)
    requires IsSqrt(sqrt) && IsPowerOfTwo(|y|) && |y| == |signs|
    ensures x == Inverse(sqrt, y, signs)
  {
    hide IsPowerOfTwo, Transform, IsSqrt;
    var a := new real[|y|](i requires 0 <= i < |y| => y[i]);
    assert a[..] == y;
    TransformInPlace(a, sqrt);
    ghost var t := a[..];
    for i := 0 to a.Length
      invariant a.Length == |y|
      invariant forall k :: 0 <= k < i ==> a[k] == Times(t[k], signs[k])
      invariant forall k :: i <= k < a.Length ==> a[k] == t[k]
    {
      a[i] := Times(a[i], signs[i]);
    }
    x := a[..];
  }

  /** The two rotations undo each other, in both orders. */
  lemma RotationRoundTrip(sqrt: real -> real, x: Vec, signs: Vec)
    requires IsSqrt(sqrt) && IsPowerOfTwo(|x|) && |x| == |signs| && IsSigns(signs)
    ensures Inverse(sqrt, Forward(sqrt, x, signs), signs) == x
    ensures Forward(sqrt, Inverse(sqrt, x, signs), signs) == x
  {
    hide Transform, IsPowerOfTwo, IsSqrt, Mul;
    TransformTwice(sqrt, Mul(x, signs));
    MulSignsTwice(x, signs);
    MulSignsTwice(Transform(sqrt, x), signs);
    TransformTwice(sqrt, x);
  }

  lemma RotationDot(sqrt: real -> real, x: Vec, y: Vec, signs: Vec)
    requires IsSqrt(sqrt) && IsPowerOfTwo(|x|) && |x| == |y| == |signs| && IsSigns(signs)
    ensures Dot(Forward(sqrt, x, signs), Forward(sqrt, y, signs)) == Dot(x, y)
    ensures Dot(Inverse(sqrt, x, signs), Inverse(sqrt, y, signs)) == Dot(x, y)
  {
    hide Transform, IsPowerOfTwo, IsSqrt, Mul, Dot, Times;
    TransformDot(sqrt, Mul(x, signs), Mul(y, signs));
    DotMulSigns(x, y, signs);
    TransformDot(sqrt, x, y);
    DotMulSigns(Transform(sqrt, x), Transform(sqrt, y), signs);
  }

  lemma MulSub(a: Vec, b: Vec, signs: Vec)
    requires |a| == |b| == |signs|
    ensures Mul(Sub(a, b), signs) == Sub(Mul(a, signs), Mul(b, signs))
  {
    forall i | 0 <= i < |a| ensures Times(a[i] - b[i], signs[i]) == Times(a[i], signs[i]) - Times(b[i], signs[i]) {}
  }

  /** Distance to x in the original space is distance to its rotation in the rotated space. */
  lemma InverseDistance(sqrt: real -> real, y: Vec, x: Vec, signs: Vec)
    requires IsSqrt(sqrt) && IsPowerOfTwo(|x|) && |x| == |y| == |signs| && IsSigns(signs)
    ensures Dist2(Inverse(sqrt, y, signs), x) == Dist2(y, Forward(sqrt, x, signs))
  {
    hide Transform, IsPowerOfTwo, IsSqrt, Mul, Dot, Times, Sub;
    var z := Forward(sqrt, x, signs);
    RotationRoundTrip(sqrt, x, signs);
    TransformSub(sqrt, y, z);
    MulSub(Transform(sqrt, y), Transform(sqrt, z), signs);
    RotationDot(sqrt, Sub(y, z), Sub(y, z), signs);
  }

  // ---- The sign pattern ----------------------------------------------------------

  const U64 := 0x1_0000_0000_0000_0000
  const GOLDEN := 0x9E37_79B9_7F4A_7C15

  function Wrap(v: nat): nat {
    v % U64
  }

  function Mix(v: nat): nat {
    v * GOLDEN
  }

  /** The hash of entry i, with u64 wrap-around. */
  function SignHash(seed: nat, i: nat): nat {
    Wrap(Mix(Wrap(Wrap(Mix(seed)) + Wrap(i))))
  }

  /** The pattern the hash amounts to: plus where seed + i is even. */
  function Pattern(d: nat, seed: nat): (r: Vec)
    ensures |r| == d
  {
    seq(d, i requires 0 <= i < d => if (seed + i) % 2 == 0 then 1.0 else -1.0)
  }

  lemma WrapParity(v: nat)
    ensures Wrap(v) % 2 == v % 2
  {
  }

  lemma MixParity(v: nat)
    ensures Mix(v) % 2 == v % 2
  {
  }

  /** The multiplier is odd and wrapping keeps parity, so the hash has the parity of seed + i. */
  lemma SignHashParity(seed: nat, i: nat)
    ensures SignHash(seed, i) % 2 == (seed + i) % 2
  {
    hide Wrap, Mix;
    MixParity(seed);
    WrapParity(Mix(seed));
    WrapParity(i);
    var s := Wrap(Mix(seed)) + Wrap(i);
    WrapParity(s);
    MixParity(Wrap(s));
    WrapParity(Mix(Wrap(s)));
  }

  /** `generate_signs`, for a u64 seed. */
  method GenerateSigns(d: nat, seed: nat) returns (signs: Vec)
    ensures signs == Pattern(d, seed)
    ensures IsSigns(signs)
  {
    hide SignHash;
    signs := [];
    for i := 0 to d
      invariant |signs| == i
      invariant forall k :: 0 <= k < i ==> signs[k] == Pattern(d, seed)[k]
    {
      SignHashParity(seed, i);
      if SignHash(seed, i) % 2 == 0 {
        signs := signs + [1.0];
      } else {
        signs := signs + [-1.0];
      }
    }
  }

  function CountOf(v: real, s: Vec): nat {
    if |s| == 0 then 0 else (if s[0] == v then 1 else 0) + CountOf(v, s[1..])
  }

  /** Plus and minus signs balance: exactly for even d, within one for odd d. */
  lemma {:induction false} PatternBalanced(d: nat, seed: nat)
    ensures CountOf(1.0, Pattern(d, seed)) + CountOf(-1.0, Pattern(d, seed)) == d
    ensures CountOf(1.0, Pattern(d, seed)) - CountOf(-1.0, Pattern(d, seed))
         == if d % 2 == 0 then 0 else if seed % 2 == 0 then 1 else -1
  {
    if d > 0 {
      PatternBalanced(d - 1, seed + 1);
      assert Pattern(d, seed)[1..] == Pattern(d - 1, seed + 1);
    }
  }

  /** Only the parity of the seed matters: there are two patterns in all, and they are opposite. */
  lemma OnlySeedParityMatters(d: nat, seed: nat, seed': nat)
    requires d > 0
    ensures Pattern(d, seed) == Pattern(d, seed') <==> seed % 2 == seed' % 2
    ensures seed % 2 != seed' % 2 ==> Pattern(d, seed) == Scale(-1.0, Pattern(d, seed'))
  {
    if seed % 2 == seed' % 2 {
      assert Pattern(d, seed) == Pattern(d, seed');
    } else {
      assert Pattern(d, seed)[0] != Pattern(d, seed')[0];
      assert forall i :: 0 <= i < d ==> Pattern(d, seed)[i] == -Pattern(d, seed')[i];
    }
  }

  /** k with its lowest bit flipped. */
  function Flip(k: nat): nat {
    if k % 2 == 0 then k + 1 else k - 1
  }

  lemma OverlapFlip(k: nat, j: nat)
    ensures (Overlap(Flip(k), j) + Overlap(k, j)) % 2 == j % 2
  {
  }

  /** v, negated when the seed is odd. */
  function SeedSigned(seed: nat, v: real): real {
    if seed % 2 == 0 then v else -v
  }

  lemma SignedFlip(k: nat, j: nat, seed: nat, v: real)
    ensures Signed(k, j, Times(v, if (seed + j) % 2 == 0 then 1.0 else -1.0)) == SeedSigned(seed, Signed(Flip(k), j, v))
  {
    hide Overlap, Flip, Times;
    OverlapFlip(k, j);
    TimesUnit(v);
    ParityOfSum(seed, j);
    ParityOfSum(Overlap(Flip(k), j), Overlap(k, j));
  }

  lemma TimesUnit(v: real)
    ensures Times(v, 1.0) == v && Times(v, -1.0) == -v
  {
  }

  lemma ParityOfSum(a: nat, b: nat)
    ensures (a + b) % 2 == if a % 2 == b % 2 then 0 else 1
  {
  }

  lemma {:induction false} RowFlip(k: nat, base: nat, x: Vec, signs: Vec, seed: nat)
    requires |signs| == |x|
    requires forall j :: 0 <= j < |x| ==> signs[j] == if (seed + (base + j)) % 2 == 0 then 1.0 else -1.0
    ensures Row(k, base, Mul(x, signs)) == SeedSigned(seed, Row(Flip(k), base, x))
    decreases |x|
  {
    if |x| != 0 {
      SignedFlip(k, base, seed, x[0]);
      assert signs[0] == if (seed + (base + 0)) % 2 == 0 then 1.0 else -1.0;
      assert Mul(x, signs)[1..] == Mul(x[1..], signs[1..]);
      RowFlip(k, base + 1, x[1..], signs[1..], seed);
    }
  }

  /** With generated signs the rotation is the plain transform with neighbouring entries
      exchanged and, for an odd seed, negated. */
  lemma GeneratedRotationIsSwappedTransform(sqrt: real -> real, x: Vec, seed: nat, k: nat)
    requires IsSqrt(sqrt) && IsPowerOfTwo(|x|) && |x| >= 2 && k < |x|
    ensures Flip(k) < |x|
    ensures Forward(sqrt, x, Pattern(|x|, seed))[k] == SeedSigned(seed, Transform(sqrt, x)[Flip(k)])
  {
    hide *;
    var signs := Pattern(|x|, seed);
    FlipInRange(|x|, k);
    ForwardEntry(sqrt, x, signs, k);
    TransformEntry(sqrt, x, Flip(k));
    PatternRow(k, x, seed);
    TimesSeedSigned(Normalizer(sqrt, |x|), seed, Row(Flip(k), 0, x));
  }

  lemma FlipInRange(n: nat, k: nat)
    requires IsPowerOfTwo(n) && n >= 2 && k < n
    ensures Flip(k) < n
  {
  }

  lemma ForwardEntry(sqrt: real -> real, x: Vec, signs: Vec, k: nat)
    requires IsSqrt(sqrt) && IsPowerOfTwo(|x|) && |x| == |signs| && k < |x|
    ensures Forward(sqrt, x, signs)[k] == Times(Normalizer(sqrt, |x|), Row(k, 0, Mul(x, signs)))
  {
    hide Transform, IsSqrt, Normalizer, Mul, Row, Times, IsPowerOfTwo;
    TransformEntry(sqrt, Mul(x, signs), k);
  }

  lemma PatternRow(k: nat, x: Vec, seed: nat)
    ensures Row(k, 0, Mul(x, Pattern(|x|, seed))) == SeedSigned(seed, Row(Flip(k), 0, x))
  {
    hide Mul, Row, SeedSigned, Flip;
    var signs := Pattern(|x|, seed);
    forall j | 0 <= j < |x| ensures signs[j] == if (seed + (0 + j)) % 2 == 0 then 1.0 else -1.0 {}
    RowFlip(k, 0, x, signs, seed);
  }

  lemma TimesSeedSigned(s: real, seed: nat, v: real)
    ensures Times(s, SeedSigned(seed, v)) == SeedSigned(seed, Times(s, v))
  {
  }

  /** The inverse as the file header words it, WHT(signs * y), is the forward rotation again. Applied to a
      rotated x it gives the neighbours of x with alternating sign ... */
  lemma HeaderInverseEntry(sqrt: real -> real, x: Vec, seed: nat, k: nat)
    requires IsSqrt(sqrt) && IsPowerOfTwo(|x|) && |x| >= 2 && k < |x|
    ensures Flip(k) < |x|
    ensures var signs := Pattern(|x|, seed);
            Forward(sqrt, Forward(sqrt, x, signs), signs)[k] == if k % 2 == 0 then -x[Flip(k)] else x[Flip(k)]
  {
    hide IsSqrt, Transform, IsPowerOfTwo, Times;
    var signs := Pattern(|x|, seed);
    FlipInRange(|x|, k);
    GeneratedRotationIsSwappedTransform(sqrt, Forward(sqrt, x, signs), seed, k);
    TransformTwice(sqrt, Mul(x, signs));
    TimesSign(x[Flip(k)], seed, Flip(k));
  }

  lemma TimesSign(v: real, seed: nat, j: nat)
    ensures SeedSigned(seed, Times(v, if (seed + j) % 2 == 0 then 1.0 else -1.0)) == if j % 2 == 0 then v else -v
  {
  }

  lemma TransformOfOne(sqrt: real -> real, x: Vec)
    requires IsSqrt(sqrt) && |x| == 1
    ensures IsPowerOfTwo(|x|) && Transform(sqrt, x) == x
  {
    SqrtUnique(sqrt, 1.0);
    assert Times(1.0, 1.0) == 1.0;
    ScaleOne(x);
  }

  /** ... so it restores x exactly when x is zero or has a single entry. */
  lemma HeaderInverseIff(sqrt: real -> real, x: Vec, seed: nat)
    requires IsSqrt(sqrt) && IsPowerOfTwo(|x|)
    ensures var signs := Pattern(|x|, seed);
            Forward(sqrt, Forward(sqrt, x, signs), signs) == x
            <==> |x| == 1 || forall k :: 0 <= k < |x| ==> x[k] == 0.0
  {
    hide *;
    var signs := Pattern(|x|, seed);
    var y := Forward(sqrt, Forward(sqrt, x, signs), signs);
    PowersOfTwo(|x|);
    if |x| == 1 {
      HeaderInverseOfOne(sqrt, x, seed);
    } else if y == x {
      forall k | 0 <= k < |x| ensures x[k] == 0.0 {
        HeaderInverseEntry(sqrt, x, seed, k);
        HeaderInverseEntry(sqrt, x, seed, Flip(k));
        FlipTwice(k);
      }
    } else if forall k :: 0 <= k < |x| ==> x[k] == 0.0 {
      forall k | 0 <= k < |x| ensures y[k] == x[k] {
        HeaderInverseEntry(sqrt, x, seed, k);
      }
    }
  }

  lemma HeaderInverseOfOne(sqrt: real -> real, x: Vec, seed: nat)
    requires IsSqrt(sqrt) && |x| == 1 && IsPowerOfTwo(|x|)
    ensures Forward(sqrt, Forward(sqrt, x, Pattern(1, seed)), Pattern(1, seed)) == x
  {
    hide Transform, IsSqrt, IsPowerOfTwo, Times;
    var signs := Pattern(1, seed);
    TransformOfOne(sqrt, Mul(x, signs));
    TransformOfOne(sqrt, Mul(Mul(x, signs), signs));
    MulSignsTwice(x, signs);
  }

  lemma FlipTwice(k: nat)
    ensures Flip(Flip(k)) == k && Flip(k) % 2 != k % 2
  {
  }
}
