/** Unsigned machine words as natural numbers, and the bits they are made of. */
module Bits {

  type Byte = b: nat | b < 256

  function Pow2(n: nat): (p: nat)
    ensures p > 0
  {
    if n == 0 then 1 else 2 * Pow2(n - 1)
  }

  /** Bit k of x. */
  predicate Bit(x: nat, k: nat) {
    if k == 0 then x % 2 == 1 else Bit(x / 2, k - 1)
  }

  /** Bitwise or. */
  function Or(a: nat, b: nat): nat {
    if a == 0 then b else (if a % 2 == 1 || b % 2 == 1 then 1 else 0) + 2 * Or(a / 2, b / 2)
  }

  /** Bitwise and. */
  function And(a: nat, b: nat): nat {
    if a == 0 then 0 else (if a % 2 == 1 && b % 2 == 1 then 1 else 0) + 2 * And(a / 2, b / 2)
  }

  /** The low n bits of x. */
  function Low(x: nat, n: nat): nat {
    if n == 0 then 0 else x % 2 + 2 * Low(x / 2, n - 1)
  }

  /** Shift left in a byte: bits pushed past the top are lost. */
  function ShiftLeft(x: nat, s: nat): (r: Byte) {
    if s == 0 then x % 256 else (2 * ShiftLeft(x, s - 1)) % 256
  }

  function ShiftRight(x: nat, s: nat): nat {
    if s == 0 then x else ShiftRight(x / 2, s - 1)
  }

  // ---- Bits of the operations ----------------------------------------------------

  lemma {:induction false} BitZero(k: nat)
    ensures !Bit(0, k)
  {
    if k > 0 { BitZero(k - 1); }
  }

  lemma {:induction false} BitOr(a: nat, b: nat, k: nat)
    ensures Bit(Or(a, b), k) == (Bit(a, k) || Bit(b, k))
  {
    if a == 0 {
      BitZero(k);
    } else if k > 0 {
      BitOr(a / 2, b / 2, k - 1);
    }
  }

  lemma {:induction false} BitAnd(a: nat, b: nat, k: nat)
    ensures Bit(And(a, b), k) == (Bit(a, k) && Bit(b, k))
  {
    if a == 0 {
      BitZero(k);
    } else if k > 0 {
      BitAnd(a / 2, b / 2, k - 1);
    }
  }

  lemma {:induction false} BitLow(x: nat, n: nat, k: nat)
    ensures Bit(Low(x, n), k) == (k < n && Bit(x, k))
  {
    if n == 0 {
      BitZero(k);
    } else if k > 0 {
      BitLow(x / 2, n - 1, k - 1);
    }
  }

  lemma {:induction false} BitShiftRight(x: nat, s: nat, k: nat)
    ensures Bit(ShiftRight(x, s), k) == Bit(x, k + s)
    decreases s
  {
    if s > 0 { BitShiftRight(x / 2, s - 1, k); }
  }

  lemma LowPair(x: nat)
    ensures Low(x, 2) == x % 4 && ShiftRight(x, 2) == x / 4
  {
    var y := x / 2;
    var z := y / 2;
    assert Low(z, 0) == 0 && ShiftRight(z, 0) == z;
    assert Low(y, 1) == y % 2 + 2 * Low(z, 0) && ShiftRight(y, 1) == ShiftRight(z, 0);
    assert Low(x, 2) == x % 2 + 2 * Low(y, 1) && ShiftRight(x, 2) == ShiftRight(y, 1);
    assert x == 4 * z + (2 * (y % 2) + x % 2);
  }

  lemma LowNibble(x: nat)
    ensures Low(x, 4) == x % 16
  {
    hide Low, ShiftRight;
    LowPair(x);
    LowPair(x / 4);
    LowSplit(x, 2, 2);
    assert Pow2(2) == 4;
    assert x % 16 == x % 4 + 4 * (x / 4 % 4);
  }

  lemma ShiftNibble(x: nat)
    ensures ShiftRight(x, 4) == x / 16 && Pow2(4) == 16
  {
    assert Pow2(2) == 4 && Pow2(3) == 8;
    assert ShiftRight(x, 4) == ShiftRight(x / 2, 3) && ShiftRight(x / 2, 3) == ShiftRight(x / 2 / 2, 2);
    LowPair(x / 2 / 2);
    assert x / 2 / 2 == x / 4;
  }

  /** Truncation to a byte keeps exactly the low eight bits. */
  lemma LowByte(x: nat)
    ensures Low(x, 8) == x % 256
  {
    hide *;
    LowNibble(x);
    LowNibble(x / 16);
    ShiftNibble(x);
    LowSplit(x, 4, 4);
    TwoNibbles(x);
  }

  lemma TwoNibbles(x: nat)
    ensures x % 256 == x % 16 + 16 * (x / 16 % 16)
  {
    var high := x / 16;
    assert x == 256 * (high / 16) + (16 * (high % 16) + x % 16);
  }

  lemma {:induction false} LowSplit(x: nat, m: nat, n: nat)
    ensures Low(x, m + n) == Low(x, m) + Pow2(m) * Low(ShiftRight(x, m), n)
  {
    if m > 0 {
      LowSplit(x / 2, m - 1, n);
      TwiceProduct(Pow2(m), Pow2(m - 1), Low(ShiftRight(x, m), n));
    }
  }

  lemma TwiceProduct(p: nat, q: nat, x: nat)
    requires p == 2 * q
    ensures p * x == 2 * (q * x)
  {
  }

  lemma {:induction false} BitShiftLeft(x: nat, s: nat, k: nat)
    requires k < 8
    ensures Bit(ShiftLeft(x, s), k) == (k >= s && Bit(x, k - s))
  {
    var y := if s == 0 then x else 2 * ShiftLeft(x, s - 1);
    LowByte(y);
    BitLow(y, 8, k);
    if s > 0 && k > 0 {
      BitShiftLeft(x, s - 1, k - 1);
      assert y / 2 == ShiftLeft(x, s - 1);
    }
  }

  /** The masks 0x07 and 0x0F keep three and four bits. */
  lemma BitMask(x: nat, k: nat)
    ensures Bit(And(x, 7), k) == (k < 3 && Bit(x, k))
    ensures Bit(And(x, 15), k) == (k < 4 && Bit(x, k))
  {
    BitAnd(x, 7, k);
    BitAnd(x, 15, k);
    assert Bit(7, 0) && Bit(7, 1) && Bit(7, 2);
    assert Bit(15, 0) && Bit(15, 1) && Bit(15, 2) && Bit(15, 3);
    if k >= 3 {
      assert Bit(7, k) == Bit(3, k - 1) == Bit(1, k - 2) == Bit(0, k - 3);
      BitZero(k - 3);
    }
    if k >= 4 {
      assert Bit(15, k) == Bit(7, k - 1) == Bit(3, k - 2) == Bit(1, k - 3) == Bit(0, k - 4);
      BitZero(k - 4);
    }
  }

  // ---- Numbers are determined by their bits --------------------------------------

  lemma {:induction false} SameBits(x: nat, y: nat)
    requires forall k :: Bit(x, k) == Bit(y, k)
    ensures x == y
    decreases x + y
  {
    assert Bit(x, 0) == Bit(y, 0);
    if x + y > 0 {
      forall k: nat ensures Bit(x / 2, k) == Bit(y / 2, k) {
        assert Bit(x, k + 1) == Bit(y, k + 1);
      }
      SameBits(x / 2, y / 2);
    }
  }

  lemma {:induction false} LowBound(x: nat, n: nat)
    ensures Low(x, n) < Pow2(n)
  {
    if n > 0 { LowBound(x / 2, n - 1); }
  }

  lemma {:induction false} LowOfSmall(x: nat, n: nat)
    requires x < Pow2(n)
    ensures Low(x, n) == x
  {
    if n > 0 { LowOfSmall(x / 2, n - 1); }
  }

  // ---- Digit strings of width w --------------------------------------------------

  /** Bit p of the stream formed by the low w bits of each element, first element lowest. */
  predicate StreamBit(s: seq<nat>, w: nat, p: nat)
    requires w > 0
    decreases |s|
  {
    |s| > 0 && if p < w then Bit(s[0], p) else StreamBit(s[1..], w, p - w)
  }

  /** The number with base-2^w digits s (only the low w bits of each count), first digit lowest. */
  function Number(s: seq<nat>, w: nat): nat {
    if |s| == 0 then 0 else Low(s[0], w) + Pow2(w) * Number(s[1..], w)
  }

  /** The lowest n base-2^w digits of v. */
  function Digits(v: nat, w: nat, n: nat): (r: seq<nat>)
    ensures |r| == n
    decreases n
  {
    if n == 0 then [] else [Low(v, w)] + Digits(ShiftRight(v, w), w, n - 1)
  }

  lemma {:induction false} BitJoin(x: nat, w: nat, y: nat, p: nat)
    requires x < Pow2(w)
    ensures Bit(x + Pow2(w) * y, p) == if p < w then Bit(x, p) else Bit(y, p - w)
  {
    if w > 0 {
      var t := Pow2(w - 1) * y;
      TwiceProduct(Pow2(w), Pow2(w - 1), y);
      assert (x + 2 * t) % 2 == x % 2 && (x + 2 * t) / 2 == x / 2 + t;
      if p > 0 { BitJoin(x / 2, w - 1, y, p - 1); }
    }
  }

  lemma {:induction false} NumberBit(s: seq<nat>, w: nat, p: nat)
    requires w > 0
    ensures Bit(Number(s, w), p) == StreamBit(s, w, p)
    decreases |s|
  {
    if |s| == 0 {
      BitZero(p);
    } else {
      LowBound(s[0], w);
      BitJoin(Low(s[0], w), w, Number(s[1..], w), p);
      if p < w {
        BitLow(s[0], w, p);
      } else {
        NumberBit(s[1..], w, p - w);
      }
    }
  }

  lemma MulUnroll(n: nat, w: nat)
    requires n > 0
    ensures n * w == w + (n - 1) * w && (n - 1) * w >= 0
  {
  }

  lemma {:induction false} DigitsBit(v: nat, w: nat, n: nat, p: nat)
    requires w > 0
    ensures StreamBit(Digits(v, w, n), w, p) == (p < n * w && Bit(v, p))
    decreases n
  {
    hide Low, ShiftRight, Bit;
    if n > 0 {
      MulUnroll(n, w);
      if p < w {
        BitLow(v, w, p);
      } else {
        DigitsBit(ShiftRight(v, w), w, n - 1, p - w);
        BitShiftRight(v, w, p - w);
      }
    }
  }

  lemma {:induction false} StreamBound(s: seq<nat>, w: nat, p: nat)
    requires w > 0 && StreamBit(s, w, p)
    ensures p < |s| * w
    decreases |s|
  {
    MulUnroll(|s|, w);
    if p >= w {
      StreamBound(s[1..], w, p - w);
    }
  }

  /** Two digit strings with the same stream of bits denote the same number, whatever their bases. */
  lemma SameStreamSameNumber(a: seq<nat>, w: nat, b: seq<nat>, w': nat)
    requires w > 0 && w' > 0
    requires forall p :: StreamBit(a, w, p) == StreamBit(b, w', p)
    ensures Number(a, w) == Number(b, w')
  {
    forall p: nat ensures Bit(Number(a, w), p) == Bit(Number(b, w'), p) {
      NumberBit(a, w, p);
      NumberBit(b, w', p);
    }
    SameBits(Number(a, w), Number(b, w'));
  }

  predicate AreDigits(s: seq<nat>, w: nat) {
    forall i :: 0 <= i < |s| ==> s[i] < Pow2(w)
  }

  lemma {:induction false} DigitsAreDigits(v: nat, w: nat, n: nat)
    ensures AreDigits(Digits(v, w, n), w)
    decreases n
  {
    if n > 0 {
      LowBound(v, w);
      DigitsAreDigits(ShiftRight(v, w), w, n - 1);
      var r := Digits(v, w, n);
      forall i | 0 <= i < n ensures r[i] < Pow2(w) {
        if i > 0 { assert r[i] == Digits(ShiftRight(v, w), w, n - 1)[i - 1]; }
      }
    }
  }

  /** Reading the digits of the number of a digit string gives the string back. */
  lemma {:induction false} DigitsOfNumber(s: seq<nat>, w: nat)
    requires w > 0 && AreDigits(s, w)
    ensures Digits(Number(s, w), w, |s|) == s
  {
    if |s| > 0 {
      var v, y := Number(s, w), Number(s[1..], w);
      LowOfSmall(s[0], w);
      forall p: nat ensures Bit(Low(v, w), p) == Bit(s[0], p) {
        BitLow(v, w, p);
        BitJoin(s[0], w, y, p);
        BitLow(s[0], w, p);
      }
      SameBits(Low(v, w), s[0]);
      forall p: nat ensures Bit(ShiftRight(v, w), p) == Bit(y, p) {
        BitShiftRight(v, w, p);
        BitJoin(s[0], w, y, p + w);
      }
      SameBits(ShiftRight(v, w), y);
      DigitsOfNumber(s[1..], w);
      assert s == [s[0]] + s[1..];
    }
  }

  // ---- Change of base ------------------------------------------------------------

  /** The digits of s, base 2^w, written with n digits base 2^w'. */
  function Rebase(s: seq<nat>, w: nat, w': nat, n: nat): (r: seq<nat>)
    ensures |r| == n
  {
    Digits(Number(s, w), w', n)
  }

  /** With room for every bit, a change of base keeps the number and can be undone. */
  lemma RebaseRoundTrip(s: seq<nat>, w: nat, w': nat, n: nat)
    requires w > 0 && w' > 0 && AreDigits(s, w) && |s| * w == n * w'
    ensures Number(Rebase(s, w, w', n), w') == Number(s, w)
    ensures Rebase(Rebase(s, w, w', n), w', w, |s|) == s
  {
    var v := Number(s, w);
    forall p: nat ensures StreamBit(Rebase(s, w, w', n), w', p) == StreamBit(s, w, p) {
      DigitsBit(v, w', n, p);
      NumberBit(s, w, p);
      if StreamBit(s, w, p) { StreamBound(s, w, p); }
    }
    SameStreamSameNumber(Rebase(s, w, w', n), w', s, w);
    DigitsOfNumber(s, w);
  }
}
