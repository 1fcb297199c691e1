/** Real vectors as sequences: the exact-arithmetic stand-in for the f32 slices of the codec. */
module Vectors {

  type Vec = seq<real>

  /** The product, under a name: sums of products are compared term by term. */
  function Times(x: real, y: real): real {
    x * y
  }

  function Add(a: Vec, b: Vec): (r: Vec)
    requires |a| == |b|
    ensures |r| == |a| && forall i :: 0 <= i < |a| ==> r[i] == a[i] + b[i]
  {
    seq(|a|, i requires 0 <= i < |a| => a[i] + b[i])
  }

  function Sub(a: Vec, b: Vec): (r: Vec)
    requires |a| == |b|
    ensures |r| == |a| && forall i :: 0 <= i < |a| ==> r[i] == a[i] - b[i]
  {
    seq(|a|, i requires 0 <= i < |a| => a[i] - b[i])
  }

  function Scale(c: real, a: Vec): (r: Vec)
    ensures |r| == |a| && forall i :: 0 <= i < |a| ==> r[i] == Times(c, a[i])
  {
    seq(|a|, i requires 0 <= i < |a| => Times(c, a[i]))
  }

  function Mul(a: Vec, b: Vec): (r: Vec)
    requires |a| == |b|
    ensures |r| == |a| && forall i :: 0 <= i < |a| ==> r[i] == Times(a[i], b[i])
  {
    seq(|a|, i requires 0 <= i < |a| => Times(a[i], b[i]))
  }

  function Dot(a: Vec, b: Vec): real
    requires |a| == |b|
  {
    if |a| == 0 then 0.0 else Times(a[0], b[0]) + Dot(a[1..], b[1..])
  }

  /** Squared Euclidean distance. */
  function Dist2(a: Vec, b: Vec): real
    requires |a| == |b|
  {
    Dot(Sub(a, b), Sub(a, b))
  }

  /** `sqrt` behaves as the exact square root on non-negative reals. */
  ghost predicate IsSqrt(sqrt: real -> real) {
    forall v: real :: v >= 0.0 ==> sqrt(v) >= 0.0 && Times(sqrt(v), sqrt(v)) == v
  }

  /** The factor 1 / sqrt(n). */
  function Normalizer(sqrt: real -> real, n: nat): real
    requires IsSqrt(sqrt) && n > 0
  {
    SqrtPositive(sqrt, n as real);
    1.0 / sqrt(n as real)
  }

  lemma SqrtPositive(sqrt: real -> real, v: real)
    requires IsSqrt(sqrt) && v > 0.0
    ensures sqrt(v) > 0.0 && Times(sqrt(v), sqrt(v)) == v
  {
  }

  lemma NormalizerSquared(sqrt: real -> real, n: nat)
    requires IsSqrt(sqrt) && n > 0
    ensures Normalizer(sqrt, n) > 0.0
    ensures Times(Times(Normalizer(sqrt, n), Normalizer(sqrt, n)), n as real) == 1.0
  {
  }

  lemma {:induction false} DotConcat(a: Vec, b: Vec, c: Vec, d: Vec)
    requires |a| == |b| && |c| == |d|
    ensures Dot(a + c, b + d) == Dot(a, b) + Dot(c, d)
  {
    if |a| == 0 {
      assert a + c == c && b + d == d;
    } else {
      assert (a + c)[1..] == a[1..] + c && (b + d)[1..] == b[1..] + d;
      DotConcat(a[1..], b[1..], c, d);
    }
  }

  /** The parallelogram identity behind one butterfly. */
  lemma {:induction false} DotButterfly(a: Vec, b: Vec, c: Vec, d: Vec)
    requires |a| == |b| == |c| == |d|
    ensures Dot(Add(a, b), Add(c, d)) + Dot(Sub(a, b), Sub(c, d)) == 2.0 * Dot(a, c) + 2.0 * Dot(b, d)
  {
    if |a| != 0 {
      DotButterfly(a[1..], b[1..], c[1..], d[1..]);
      assert Add(a, b)[1..] == Add(a[1..], b[1..]) && Sub(a, b)[1..] == Sub(a[1..], b[1..]);
      assert Add(c, d)[1..] == Add(c[1..], d[1..]) && Sub(c, d)[1..] == Sub(c[1..], d[1..]);
      Parallelogram(a[0], b[0], c[0], d[0]);
    }
  }

  lemma Parallelogram(a: real, b: real, c: real, d: real)
    ensures Times(a + b, c + d) + Times(a - b, c - d) == 2.0 * Times(a, c) + 2.0 * Times(b, d)
  {
  }

  lemma {:induction false} DotScale(p: real, a: Vec, q: real, b: Vec)
    requires |a| == |b|
    ensures Dot(Scale(p, a), Scale(q, b)) == Times(Times(p, q), Dot(a, b))
  {
    if |a| != 0 {
      DotScale(p, a[1..], q, b[1..]);
      ScaleTail(p, a);
      ScaleTail(q, b);
      Distribute(p, q, a[0], b[0], Dot(a[1..], b[1..]));
    }
  }

  lemma ScaleTail(c: real, a: Vec)
    requires |a| > 0
    ensures Scale(c, a)[1..] == Scale(c, a[1..])
  {
  }

  lemma Distribute(p: real, q: real, x: real, y: real, t: real)
    ensures Times(Times(p, x), Times(q, y)) + Times(Times(p, q), t) == Times(Times(p, q), Times(x, y) + t)
  {
  }

  lemma {:induction false} DotNonNegative(a: Vec)
    ensures Dot(a, a) >= 0.0
  {
    if |a| != 0 {
      DotNonNegative(a[1..]);
    }
  }

  /** A lower bound on every squared entry bounds the sum of squares. */
  lemma {:induction false} DotLowerBound(a: Vec, m: real)
    requires forall i :: 0 <= i < |a| ==> Times(a[i], a[i]) >= m
    ensures Dot(a, a) >= Times(|a| as real, m)
  {
    if |a| != 0 {
      assert forall i :: 0 <= i < |a[1..]| ==> a[1..][i] == a[i + 1];
      DotLowerBound(a[1..], m);
      assert Times(|a| as real, m) == Times(|a[1..]| as real, m) + m by {
        assert |a| as real == |a[1..]| as real + 1.0;
      }
    }
  }

  /** Entry-wise no farther means no farther in squared distance. */
  lemma {:induction false} Dist2Pointwise(y: Vec, a: Vec, b: Vec)
    requires |y| == |a| == |b|
    requires forall i :: 0 <= i < |y| ==> Times(a[i] - y[i], a[i] - y[i]) <= Times(b[i] - y[i], b[i] - y[i])
    ensures Dist2(a, y) <= Dist2(b, y)
  {
    if |y| != 0 {
      assert Sub(a, y)[1..] == Sub(a[1..], y[1..]) && Sub(b, y)[1..] == Sub(b[1..], y[1..]);
      assert forall i :: 0 <= i < |y[1..]| ==> y[1..][i] == y[i + 1] && a[1..][i] == a[i + 1] && b[1..][i] == b[i + 1];
      Dist2Pointwise(y[1..], a[1..], b[1..]);
    }
  }

  /** A zero sum of squares means a zero vector. */
  lemma {:induction false} DotZero(a: Vec)
    requires Dot(a, a) == 0.0
    ensures forall i :: 0 <= i < |a| ==> a[i] == 0.0
  {
    if |a| != 0 {
      DotNonNegative(a[1..]);
      if a[0] != 0.0 {
        SquarePositive(a[0]);
        assert false;
      }
      DotZero(a[1..]);
      forall i | 0 <= i < |a| ensures a[i] == 0.0 {
        if i > 0 { assert a[1..][i - 1] == 0.0; }
      }
    }
  }

  lemma SquarePositive(v: real)
    requires v != 0.0
    ensures Times(v, v) > 0.0
  {
    if v < 0.0 {
      PositiveProduct(-v, -v);
      assert Times(-v, -v) == Times(v, v);
    } else {
      PositiveProduct(v, v);
    }
  }

  lemma PositiveProduct(x: real, y: real)
    requires x > 0.0 && y > 0.0
    ensures Times(x, y) > 0.0
  {
  }

  /** Multiplying by the same vector of signs twice is the identity. */
  lemma MulSignsTwice(a: Vec, signs: Vec)
    requires |a| == |signs|
    requires forall i :: 0 <= i < |signs| ==> signs[i] == 1.0 || signs[i] == -1.0
    ensures Mul(Mul(a, signs), signs) == a
  {
  }

  lemma {:induction false} DotMulSigns(a: Vec, b: Vec, signs: Vec)
    requires |a| == |b| == |signs|
    requires forall i :: 0 <= i < |signs| ==> signs[i] == 1.0 || signs[i] == -1.0
    ensures Dot(Mul(a, signs), Mul(b, signs)) == Dot(a, b)
  {
    if |a| != 0 {
      assert Mul(a, signs)[1..] == Mul(a[1..], signs[1..]) && Mul(b, signs)[1..] == Mul(b[1..], signs[1..]);
      DotMulSigns(a[1..], b[1..], signs[1..]);
      if signs[0] == 1.0 {} else {}
    }
  }

  lemma SquareMonotone(a: real, b: real)
    requires 0.0 <= a <= b
    ensures Times(a, a) <= Times(b, b)
    ensures a < b ==> Times(a, a) < Times(b, b)
  {
    if a < b {
      PositiveProduct(b - a, a + b);
      assert Times(b - a, a + b) == Times(b, b) - Times(a, a);
    }
  }

  /** A non-negative number is the square root of its square. */
  lemma SqrtUnique(sqrt: real -> real, w: real)
    requires IsSqrt(sqrt) && w >= 0.0
    ensures sqrt(Times(w, w)) == w
  {
    var r := sqrt(Times(w, w));
    assert Times(w, w) >= 0.0;
    if r < w {
      SquareMonotone(r, w);
      assert false;
    } else if w < r {
      SquareMonotone(w, r);
      assert false;
    }
  }
}
