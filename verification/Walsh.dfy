/** The Walsh-Hadamard transform as mathematics: a matrix, and the recursion on halves. */
module Walsh {
  import opened Vectors

  predicate IsPowerOfTwo(n: nat) {
    n == 1 || (n > 0 && n % 2 == 0 && IsPowerOfTwo(n / 2))
  }

  /** Number of ones in the bitwise and of k and j. */
  function Overlap(k: nat, j: nat): nat {
    if k == 0 || j == 0 then 0 else (k % 2) * (j % 2) + Overlap(k / 2, j / 2)
  }

  /** v with the sign of entry (k, j) of the Walsh matrix, (-1)^popcount(k & j). */
  function Signed(k: nat, j: nat, v: real): real {
    if Overlap(k, j) % 2 == 0 then v else -v
  }

  /** Row k of the Walsh matrix, read from column `base` on, applied to x. */
  function Row(k: nat, base: nat, x: Vec): real
    decreases |x|
  {
    if |x| == 0 then 0.0 else Signed(k, base, x[0]) + Row(k, base + 1, x[1..])
  }

  /** One butterfly over a pair of half-length vectors: sums, then differences. */
  function Butterfly(a: Vec, b: Vec): (r: Vec)
    requires |a| == |b|
    ensures |r| == 2 * |a|
  {
    Add(a, b) + Sub(a, b)
  }

  /** The unnormalised transform by the recursion on halves. */
  function Hadamard(x: Vec): (r: Vec)
    requires IsPowerOfTwo(|x|)
    ensures |r| == |x|
  {
    if |x| == 1 then x
    else
      var h := |x| / 2;
      Butterfly(Hadamard(x[..h]), Hadamard(x[h..]))
  }

  /** The recursion, read from the halves to the whole. */
  lemma HadamardJoin(u: Vec, v: Vec)
    requires |u| == |v| && IsPowerOfTwo(|u|)
    ensures IsPowerOfTwo(|u + v|)
    ensures Hadamard(u + v) == Butterfly(Hadamard(u), Hadamard(v))
  {
  }

  // ---- The recursion computes the matrix product --------------------------------

  /** Below the top bit h of a column index, a row index k < h does not see that bit;
      a row index with the top bit set sees it once. */
  lemma {:induction false} OverlapTopBit(k: nat, j: nat, h: nat)
    requires IsPowerOfTwo(h) && k < h && j < h
    ensures Overlap(k, h + j) == Overlap(k, j) == Overlap(h + k, j)
    ensures Overlap(h + k, h + j) == 1 + Overlap(k, j)
  {
    hide Overlap;
    OverlapHalves(k, h + j);
    OverlapHalves(k, j);
    OverlapHalves(h + k, j);
    OverlapHalves(h + k, h + j);
    if h == 1 {
      OverlapZero();
    } else {
      OverlapTopBit(k / 2, j / 2, h / 2);
      HalvesOfSum(h, k);
      HalvesOfSum(h, j);
    }
  }

  lemma OverlapZero()
    ensures forall n: nat :: Overlap(0, n) == 0 && Overlap(n, 0) == 0
  {
  }

  lemma HalvesOfSum(h: nat, k: nat)
    requires h % 2 == 0
    ensures (h + k) / 2 == h / 2 + k / 2 && (h + k) % 2 == k % 2
  {
  }

  lemma OverlapHalves(k: nat, j: nat)
    ensures Overlap(k, j) == (k % 2) * (j % 2) + Overlap(k / 2, j / 2)
  {
    if k == 0 {
      assert k / 2 == 0 && k % 2 == 0;
    } else if j == 0 {
      assert j / 2 == 0 && j % 2 == 0;
    }
  }

  lemma {:induction false} RowConcat(k: nat, base: nat, x: Vec, y: Vec)
    ensures Row(k, base, x + y) == Row(k, base, x) + Row(k, base + |x|, y)
    decreases |x|
  {
    if |x| == 0 {
      assert x + y == y;
    } else {
      assert (x + y)[1..] == x[1..] + y;
      RowConcat(k, base + 1, x[1..], y);
    }
  }

  lemma SignedTopBit(k: nat, j: nat, h: nat, v: real)
    requires IsPowerOfTwo(h) && k < h && j < h
    ensures Signed(k, h + j, v) == Signed(k, j, v)
    ensures Signed(h + k, j, v) == Signed(k, j, v)
    ensures Signed(h + k, h + j, v) == -Signed(k, j, v)
  {
    hide Overlap, IsPowerOfTwo;
    OverlapTopBit(k, j, h);
  }

  lemma {:induction false} RowTopBit(k: nat, base: nat, h: nat, x: Vec)
    requires IsPowerOfTwo(h) && k < h && base + |x| <= h
    ensures Row(k, h + base, x) == Row(k, base, x)
    ensures Row(h + k, base, x) == Row(k, base, x)
    ensures Row(h + k, h + base, x) == -Row(k, base, x)
    decreases |x|
  {
    if |x| != 0 {
      SignedTopBit(k, base, h, x[0]);
      RowTopBit(k, base + 1, h, x[1..]);
      assert h + base + 1 == h + (base + 1);
    }
  }

  /** A row of the matrix of size 2h acts on the two halves as the row of size h: sum, then difference. */
  lemma RowHalves(k: nat, u: Vec, v: Vec)
    requires IsPowerOfTwo(|u|) && |v| == |u| && k < |u|
    ensures Row(k, 0, u + v) == Row(k, 0, u) + Row(k, 0, v)
    ensures Row(|u| + k, 0, u + v) == Row(k, 0, u) - Row(k, 0, v)
  {
    hide Row, IsPowerOfTwo;
    RowConcat(k, 0, u, v);
    RowConcat(|u| + k, 0, u, v);
    RowTopBit(k, 0, |u|, u);
    RowTopBit(k, 0, |u|, v);
  }

  /** Every entry of the recursive transform is the signed sum of the Walsh matrix. */
  lemma {:induction false} HadamardIsWalshMatrix(x: Vec, k: nat)
    requires IsPowerOfTwo(|x|) && k < |x|
    ensures Hadamard(x)[k] == Row(k, 0, x)
    decreases |x|
  {
    hide Row, IsPowerOfTwo, Butterfly;
    if |x| == 1 {
      RowOfOne(x);
    } else {
      AtLeastTwo(|x|);
      HalfOfPower(|x|);
      var h := |x| / 2;
      var u, v := x[..h], x[h..];
      assert x == u + v;
      var k' := if k < h then k else k - h;
      HadamardIsWalshMatrix(u, k');
      HadamardIsWalshMatrix(v, k');
      WalshJoin(u, v, k');
    }
  }

  lemma WalshJoin(u: Vec, v: Vec, k: nat)
    requires IsPowerOfTwo(|u|) && |v| == |u| && k < |u|
    requires Hadamard(u)[k] == Row(k, 0, u) && Hadamard(v)[k] == Row(k, 0, v)
    ensures IsPowerOfTwo(|u + v|)
    ensures Hadamard(u + v)[k] == Row(k, 0, u + v) && Hadamard(u + v)[|u| + k] == Row(|u| + k, 0, u + v)
  {
    hide Hadamard, Row, IsPowerOfTwo, Add, Sub;
    HadamardJoin(u, v);
    RowHalves(k, u, v);
  }

  lemma HalfOfPower(n: nat)
    requires IsPowerOfTwo(n) && n > 1
    ensures IsPowerOfTwo(n / 2) && n == 2 * (n / 2)
  {
  }

  lemma RowOfOne(x: Vec)
    requires |x| == 1
    ensures Row(0, 0, x) == x[0]
  {
  }

  // ---- Linearity, involution, isometry -------------------------------------------

  lemma ButterflyLinear(a: Vec, b: Vec, c: Vec, d: Vec)
    requires |a| == |b| == |c| == |d|
    ensures Butterfly(Add(a, b), Add(c, d)) == Add(Butterfly(a, c), Butterfly(b, d))
    ensures Butterfly(Sub(a, b), Sub(c, d)) == Sub(Butterfly(a, c), Butterfly(b, d))
  {
  }

  lemma AddSubHalves(u: Vec, v: Vec, p: Vec, q: Vec)
    requires |u| == |p| && |v| == |q|
    ensures Add(u + v, p + q) == Add(u, p) + Add(v, q)
    ensures Sub(u + v, p + q) == Sub(u, p) + Sub(v, q)
  {
  }

  lemma {:induction false} HadamardLinear(x: Vec, y: Vec)
    requires |x| == |y| && IsPowerOfTwo(|x|)
    ensures Hadamard(Add(x, y)) == Add(Hadamard(x), Hadamard(y))
    ensures Hadamard(Sub(x, y)) == Sub(Hadamard(x), Hadamard(y))
    decreases |x|
  {
    hide Add, Sub, Butterfly, IsPowerOfTwo;
    if |x| != 1 {
      AtLeastTwo(|x|);
      HalfOfPower(|x|);
      var h := |x| / 2;
      var u, v, p, q := x[..h], x[h..], y[..h], y[h..];
      HadamardLinear(u, p);
      HadamardLinear(v, q);
      assert x == u + v && y == p + q;
      HadamardLinearJoin(u, v, p, q);
    }
  }

  lemma AtLeastTwo(n: nat)
    requires IsPowerOfTwo(n) && n != 1
    ensures n > 1
  {
  }

  lemma HadamardLinearJoin(u: Vec, v: Vec, p: Vec, q: Vec)
    requires |u| == |v| == |p| == |q| && IsPowerOfTwo(|u|)
    requires Hadamard(Add(u, p)) == Add(Hadamard(u), Hadamard(p))
    requires Hadamard(Sub(u, p)) == Sub(Hadamard(u), Hadamard(p))
    requires Hadamard(Add(v, q)) == Add(Hadamard(v), Hadamard(q))
    requires Hadamard(Sub(v, q)) == Sub(Hadamard(v), Hadamard(q))
    ensures IsPowerOfTwo(|u + v|)
    ensures Hadamard(Add(u + v, p + q)) == Add(Hadamard(u + v), Hadamard(p + q))
    ensures Hadamard(Sub(u + v, p + q)) == Sub(Hadamard(u + v), Hadamard(p + q))
  {
    hide *;
    AddSubHalves(u, v, p, q);
    HadamardJoin(u, v);
    HadamardJoin(p, q);
    HadamardJoin(Add(u, p), Add(v, q));
    HadamardJoin(Sub(u, p), Sub(v, q));
    ButterflyLinear(Hadamard(u), Hadamard(p), Hadamard(v), Hadamard(q));
  }

  lemma ButterflyScale(c: real, a: Vec, b: Vec)
    requires |a| == |b|
    ensures Butterfly(Scale(c, a), Scale(c, b)) == Scale(c, Butterfly(a, b))
  {
    hide Times;
    forall i | 0 <= i < |a|
      ensures Times(c, a[i]) + Times(c, b[i]) == Times(c, a[i] + b[i])
      ensures Times(c, a[i]) - Times(c, b[i]) == Times(c, a[i] - b[i])
    {
      TimesDistributes(c, a[i], b[i]);
    }
  }

  lemma TimesDistributes(c: real, a: real, b: real)
    ensures Times(c, a) + Times(c, b) == Times(c, a + b)
    ensures Times(c, a) - Times(c, b) == Times(c, a - b)
  {
  }

  lemma ScaleConcat(c: real, a: Vec, b: Vec)
    ensures Scale(c, a + b) == Scale(c, a) + Scale(c, b)
  {
  }

  lemma {:induction false} HadamardScale(c: real, x: Vec)
    requires IsPowerOfTwo(|x|)
    ensures Hadamard(Scale(c, x)) == Scale(c, Hadamard(x))
    decreases |x|
  {
    hide Butterfly, IsPowerOfTwo, Times;
    if |x| != 1 {
      AtLeastTwo(|x|);
      HalfOfPower(|x|);
      var u, v := x[..|x| / 2], x[|x| / 2..];
      HadamardScale(c, u);
      HadamardScale(c, v);
      assert x == u + v;
      HadamardScaleJoin(c, u, v);
    }
  }

  lemma HadamardScaleJoin(c: real, u: Vec, v: Vec)
    requires |u| == |v| && IsPowerOfTwo(|u|)
    requires Hadamard(Scale(c, u)) == Scale(c, Hadamard(u)) && Hadamard(Scale(c, v)) == Scale(c, Hadamard(v))
    ensures IsPowerOfTwo(|u + v|)
    ensures Hadamard(Scale(c, u + v)) == Scale(c, Hadamard(u + v))
  {
    hide *;
    ScaleConcat(c, u, v);
    HadamardJoin(u, v);
    HadamardJoin(Scale(c, u), Scale(c, v));
    ButterflyScale(c, Hadamard(u), Hadamard(v));
  }

  lemma ButterflyTwice(p: Vec, q: Vec)
    requires |p| == |q|
    ensures Butterfly(Add(p, q), Sub(p, q)) == Scale(2.0, p + q)
  {
  }

  lemma ScaleScale(c: real, d: real, a: Vec)
    ensures Scale(c, Scale(d, a)) == Scale(Times(c, d), a)
  {
    forall i | 0 <= i < |a| ensures Times(c, Times(d, a[i])) == Times(Times(c, d), a[i]) {}
  }

  /** Transforming twice multiplies by the length. */
  lemma {:induction false} HadamardTwice(x: Vec)
    requires IsPowerOfTwo(|x|)
    ensures Hadamard(Hadamard(x)) == Scale(|x| as real, x)
    decreases |x|
  {
    hide Butterfly, IsPowerOfTwo;
    if |x| == 1 {
      assert Scale(1.0, x) == x;
    } else {
      AtLeastTwo(|x|);
      HalfOfPower(|x|);
      var u, v := x[..|x| / 2], x[|x| / 2..];
      assert x == u + v;
      HadamardTwice(u);
      HadamardTwice(v);
      HadamardTwiceJoin(u, v);
    }
  }

  lemma HadamardTwiceJoin(u: Vec, v: Vec)
    requires |u| == |v| && IsPowerOfTwo(|u|)
    requires Hadamard(Hadamard(u)) == Scale(|u| as real, u)
    requires Hadamard(Hadamard(v)) == Scale(|v| as real, v)
    ensures IsPowerOfTwo(|u + v|)
    ensures Hadamard(Hadamard(u + v)) == Scale(|u + v| as real, u + v)
  {
    hide Hadamard, Scale, Add, Sub, IsPowerOfTwo;
    var a, b := Hadamard(u), Hadamard(v);
    HadamardJoin(u, v);
    HadamardJoin(Add(a, b), Sub(a, b));
    HadamardLinear(a, b);
    ButterflyTwice(Hadamard(a), Hadamard(b));
    ScaledTwice(u, v);
  }

  lemma ScaledTwice(u: Vec, v: Vec)
    requires |u| == |v|
    ensures Scale(2.0, Scale(|u| as real, u) + Scale(|v| as real, v)) == Scale(|u + v| as real, u + v)
  {
    ScaleConcat(|u| as real, u, v);
    ScaleScale(2.0, |u| as real, u + v);
    assert Times(2.0, |u| as real) == |u + v| as real;
  }

  /** Inner products are multiplied by the length. */
  lemma {:induction false} HadamardDot(x: Vec, y: Vec)
    requires |x| == |y| && IsPowerOfTwo(|x|)
    ensures Dot(Hadamard(x), Hadamard(y)) == Times(|x| as real, Dot(x, y))
    decreases |x|
  {
    hide Butterfly, IsPowerOfTwo, Dot;
    if |x| != 1 {
      AtLeastTwo(|x|);
      HalfOfPower(|x|);
      var h := |x| / 2;
      var u, v, p, q := x[..h], x[h..], y[..h], y[h..];
      assert x == u + v && y == p + q;
      HadamardDot(u, p);
      HadamardDot(v, q);
      HadamardDotJoin(u, v, p, q);
    }
  }

  lemma HadamardDotJoin(u: Vec, v: Vec, p: Vec, q: Vec)
    requires |u| == |v| == |p| == |q| && IsPowerOfTwo(|u|)
    requires Dot(Hadamard(u), Hadamard(p)) == Times(|u| as real, Dot(u, p))
    requires Dot(Hadamard(v), Hadamard(q)) == Times(|v| as real, Dot(v, q))
    ensures IsPowerOfTwo(|u + v|)
    ensures Dot(Hadamard(u + v), Hadamard(p + q)) == Times(|u + v| as real, Dot(u + v, p + q))
  {
    hide *;
    HadamardJoin(u, v);
    HadamardJoin(p, q);
    DotConcat(u, p, v, q);
    DotButterflies(Hadamard(u), Hadamard(v), Hadamard(p), Hadamard(q));
    Double(|u|, Dot(u, p), Dot(v, q));
    assert |u + v| == 2 * |u|;
  }

  lemma DotButterflies(a: Vec, b: Vec, c: Vec, d: Vec)
    requires |a| == |b| == |c| == |d|
    ensures Dot(Butterfly(a, b), Butterfly(c, d)) == 2.0 * Dot(a, c) + 2.0 * Dot(b, d)
  {
    DotConcat(Add(a, b), Add(c, d), Sub(a, b), Sub(c, d));
    DotButterfly(a, b, c, d);
  }

  lemma Double(h: nat, p: real, q: real)
    ensures 2.0 * Times(h as real, p) + 2.0 * Times(h as real, q) == Times((2 * h) as real, p + q)
  {
  }
}
