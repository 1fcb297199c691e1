/** mlx/src/broadcast.rs: the shape two operands are broadcast to. */
module Broadcast {
  import opened Basics

  type Shape = seq<int>

  datatype Result = Ok(shape: Shape) | BroadcastMismatch(lhs: Shape, rhs: Shape)

  // ---- The index trick -----------------------------------------------------------

  const USIZE: nat := 0x1_0000_0000_0000_0000

  /** Rust slices have at most isize::MAX elements. */
  const MAX_RANK: nat := 0x7FFF_FFFF_FFFF_FFFF

  function WrappingSub(a: nat, b: nat): nat {
    (a - b) % USIZE
  }

  /** `.get(index).copied().unwrap_or(1)`. */
  function GetOrOne(s: Shape, index: nat): int {
    if index < |s| then s[index] else 1
  }

  /** Dimension k counted from the right, from 1; missing leading dimensions are 1. */
  function At(s: Shape, k: nat): int {
    if 1 <= k <= |s| then s[|s| - k] else 1
  }

  /** Past the left end the subtraction wraps to an index no shape has, so the lookup pads with ones. */
  lemma WrappedLookup(s: Shape, k: nat)
    requires |s| <= MAX_RANK && 1 <= k <= MAX_RANK
    ensures GetOrOne(s, WrappingSub(|s|, k)) == At(s, k)
  {
  }

  // ---- Broadcasting as an order --------------------------------------------------

  /** NumPy's rule: right-aligned, every dimension of s is that of t or 1. */
  ghost predicate BroadcastsTo(s: Shape, t: Shape) {
    |s| <= |t| && forall k :: 1 <= k <= |t| ==> At(s, k) == At(t, k) || At(s, k) == 1
  }

  lemma OrderAntisymmetric(a: Shape, b: Shape)
    requires BroadcastsTo(a, b) && BroadcastsTo(b, a)
    ensures a == b
  {
    forall i | 0 <= i < |a| ensures a[i] == b[i] {
      assert At(a, |a| - i) == a[i] && At(b, |a| - i) == b[i];
    }
  }

  // ---- The shape inference -------------------------------------------------------

  predicate Compatible(a: int, b: int) {
    a == b || a == 1 || b == 1
  }

  function JoinDim(a: int, b: int): int {
    if a == b then a else if a == 1 then b else a
  }

  /** The dimensions met so far, from the left. */
  function JoinPrefix(lhs: Shape, rhs: Shape, n: nat, i: nat): (r: Shape)
    requires i <= n
    ensures |r| == i && forall j :: 0 <= j < i ==> r[j] == JoinDim(At(lhs, n - j), At(rhs, n - j))
  {
    seq(i, j requires 0 <= j < i => JoinDim(At(lhs, n - j), At(rhs, n - j)))
  }

  ghost predicate AllCompatible(lhs: Shape, rhs: Shape) {
    forall k :: 1 <= k <= Max(|lhs|, |rhs|) ==> Compatible(At(lhs, k), At(rhs, k))
  }

  ghost function Join(lhs: Shape, rhs: Shape): Option<Shape> {
    if AllCompatible(lhs, rhs) then Some(JoinPrefix(lhs, rhs, Max(|lhs|, |rhs|), Max(|lhs|, |rhs|))) else None
  }

  /** `broadcast_shape`. */
  method BroadcastShape(lhs: Shape, rhs: Shape) returns (r: Result)
    requires |lhs| <= MAX_RANK && |rhs| <= MAX_RANK
    ensures Join(lhs, rhs) == if r.Ok? then Some(r.shape) else None
    ensures r.BroadcastMismatch? ==> r.lhs == lhs && r.rhs == rhs
  {
    var n := Max(|lhs|, |rhs|);
    var out := [];
    for i := 0 to n
      invariant out == JoinPrefix(lhs, rhs, n, i)
      invariant forall k :: n - i < k <= n ==> Compatible(At(lhs, k), At(rhs, k))
    {
      WrappedLookup(lhs, n - i);
      WrappedLookup(rhs, n - i);
      var a := GetOrOne(lhs, WrappingSub(|lhs|, n - i));
      var b := GetOrOne(rhs, WrappingSub(|rhs|, n - i));
      var dim;
      if a == b {
        dim := a;
      } else if a == 1 {
        dim := b;
      } else if b == 1 {
        dim := a;
      } else {
        assert !Compatible(At(lhs, n - i), At(rhs, n - i));
        return BroadcastMismatch(lhs, rhs);
      }
      out := out + [dim];
    }
    r := Ok(out);
  }

  /** The result is the least shape both operands broadcast to; there is none exactly when the inference fails. */
  lemma JoinIsLeastUpperBound(a: Shape, b: Shape)
    ensures Join(a, b).Some? ==> BroadcastsTo(a, Join(a, b).value) && BroadcastsTo(b, Join(a, b).value)
    ensures forall d :: BroadcastsTo(a, d) && BroadcastsTo(b, d) ==>
              Join(a, b).Some? && BroadcastsTo(Join(a, b).value, d)
  {
  }

  /** Anything with the same upper bounds is the same result. */
  lemma SameBoundsSameResult(p: Option<Shape>, q: Option<Shape>)
    requires forall d :: Bounds(p, d) <==> Bounds(q, d)
    ensures p == q
  {
    if p.Some? { Reflexive(p.value); assert Bounds(p, p.value); }
    if q.Some? { Reflexive(q.value); assert Bounds(q, q.value); }
    if p.Some? && q.Some? { OrderAntisymmetric(p.value, q.value); }
  }

  lemma Reflexive(a: Shape)
    ensures BroadcastsTo(a, a)
  {
  }

  /** d is an upper bound of the result p; a failure has none. */
  ghost predicate Bounds(p: Option<Shape>, d: Shape) {
    p.Some? && BroadcastsTo(p.value, d)
  }

  /** Joining with a result that may already be a failure. */
  ghost function Then(p: Option<Shape>, q: Option<Shape>): Option<Shape> {
    if p.Some? && q.Some? then Join(p.value, q.value) else None
  }

  lemma BoundsOfThen(p: Option<Shape>, q: Option<Shape>, d: Shape)
    ensures Bounds(Then(p, q), d) <==> Bounds(p, d) && Bounds(q, d)
  {
  }

  /** Shape inference is commutative, idempotent and associative, failures included, with the scalar shape as unit. */
  lemma JoinLaws(a: Shape, b: Shape, c: Shape)
    ensures Join(a, b) == Join(b, a)
    ensures Join(a, a) == Some(a)
    ensures Join(a, []) == Some(a) == Join([], a)
    ensures Then(Join(a, b), Some(c)) == Then(Some(a), Join(b, c))
  {
    hide BroadcastsTo, Join, Then;
    SameByBounds(Then(Some(a), Some(b)), Then(Some(b), Some(a)), Some(a), Some(b));
    Idempotent(a);
    Unit(a);
    ThenOfSome(a, b);
    ThenOfSome(b, a);
    ThenOfSome(b, c);
    forall d ensures Bounds(Then(Join(a, b), Some(c)), d) <==> Bounds(Then(Some(a), Join(b, c)), d) {
      BoundsOfThen(Join(a, b), Some(c), d);
      BoundsOfThen(Some(a), Some(b), d);
      BoundsOfThen(Some(a), Join(b, c), d);
      BoundsOfThen(Some(b), Some(c), d);
    }
    SameBoundsSameResult(Then(Join(a, b), Some(c)), Then(Some(a), Join(b, c)));
  }

  lemma ThenOfSome(a: Shape, b: Shape)
    ensures Then(Some(a), Some(b)) == Join(a, b)
  {
  }

  lemma SameByBounds(x: Option<Shape>, y: Option<Shape>, p: Option<Shape>, q: Option<Shape>)
    requires x == Then(p, q) && y == Then(q, p)
    ensures x == y
  {
    hide BroadcastsTo, Join, Then;
    forall d ensures Bounds(x, d) <==> Bounds(y, d) {
      BoundsOfThen(p, q, d);
      BoundsOfThen(q, p, d);
    }
    SameBoundsSameResult(x, y);
  }

  lemma Idempotent(a: Shape)
    ensures Join(a, a) == Some(a)
  {
    var n := |a|;
    forall i | 0 <= i < n ensures JoinPrefix(a, a, n, n)[i] == a[i] {
      assert At(a, n - i) == a[i];
    }
    assert JoinPrefix(a, a, n, n) == a;
  }

  lemma Unit(a: Shape)
    ensures Join(a, []) == Some(a) && Join([], a) == Some(a)
  {
    var n := |a|;
    forall i | 0 <= i < n ensures JoinPrefix(a, [], n, n)[i] == a[i] && JoinPrefix([], a, n, n)[i] == a[i] {
      assert At(a, n - i) == a[i] && At([], n - i) == 1;
    }
    assert JoinPrefix(a, [], n, n) == a && JoinPrefix([], a, n, n) == a;
  }
}
