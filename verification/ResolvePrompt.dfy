/** scripts/benchmark_prompt_lookup_matrix.py: choosing the prompt size closest to a token target. */
module ResolvePrompt {

  datatype Resolution = Units(units: nat) | TargetNotPositive | Unbracketed

  const LIMIT: nat := 1_000_000

  /** The last size the doubling tries before it gives up: 2^19. */
  const LAST_DOUBLING: nat := 524288

  function Distance(count: nat -> int, target: int, units: nat): nat {
    if count(units) < target then target - count(units) else count(units) - target
  }

  ghost predicate NonDecreasing(count: nat -> int) {
    forall a, b :: 1 <= a <= b ==> count(a) <= count(b)
  }

  /** a is at most as far from the target as b. */
  predicate NoFarther(a: int, b: int, target: int) {
    -(if b < target then target - b else b - target) <= a - target <= (if b < target then target - b else b - target)
  }

  lemma Monotone(count: nat -> int, a: nat, b: nat)
    requires NonDecreasing(count)
    ensures 1 <= a <= b ==> count(a) <= count(b)
  {
  }

  /** a comes before b under the key (distance to the target, value). */
  predicate Before(count: nat -> int, target: int, a: nat, b: nat) {
    Distance(count, target, a) < Distance(count, target, b)
    || (Distance(count, target, a) == Distance(count, target, b) && a <= b)
  }

  /** `min(candidates, key=...)`. */
  method Closest(count: nat -> int, target: int, candidates: set<nat>) returns (best: nat)
    requires candidates != {}
    ensures best in candidates && forall c :: c in candidates ==> Before(count, target, best, c)
  {
    best :| best in candidates;
    var todo := candidates - {best};
    while todo != {}
      invariant todo <= candidates && best in candidates
      invariant forall c :: c in candidates - todo ==> Before(count, target, best, c)
      decreases |todo|
    {
      var c :| c in todo;
      ghost var seen, was := candidates - todo, best;
      if !Before(count, target, best, c) { best := c; }
      todo := todo - {c};
      forall d | d in candidates - todo ensures Before(count, target, best, d) {
        if d != c { assert d in seen && Before(count, target, was, d); }
      }
    }
  }

  function Power(m: nat): nat {
    if m == 0 then 1 else 2 * Power(m - 1)
  }

  lemma FiveDoublings(m: nat)
    ensures Power(m + 5) == 32 * Power(m)
  {
    assert Power(m + 5) == 2 * Power(m + 4) && Power(m + 4) == 2 * Power(m + 3);
    assert Power(m + 3) == 2 * Power(m + 2) && Power(m + 2) == 2 * Power(m + 1);
  }

  lemma LargePowers()
    ensures Power(20) == 1048576 && Power(19) == 524288 && Power(18) == 262144
  {
    FiveDoublings(0);
    FiveDoublings(5);
    FiveDoublings(10);
    FiveDoublings(15);
    assert Power(20) == 2 * Power(19) && Power(19) == 2 * Power(18);
  }

  lemma {:induction false} PowerMonotone(a: nat, b: nat)
    ensures a <= b ==> Power(a) <= Power(b)
  {
    if a < b { PowerMonotone(a, b - 1); }
  }

  /** Which doublings stay within the limit. */
  lemma WithinLimit(d: nat)
    ensures Power(d) <= LIMIT <==> d <= 19
    ensures d <= 19 ==> Power(d) <= LAST_DOUBLING
    ensures d == 19 ==> Power(d) == LAST_DOUBLING
  {
    LargePowers();
    PowerMonotone(d, 19);
    PowerMonotone(20, d);
  }

  /** `resolve_prompt`: double until the target is bracketed, bisect, and take the closest size seen.
      For a counter that does not decrease, no size at all is closer to the target, and where the two sizes around
      the target are equally close the smaller one is not exceeded. At most 38 sizes are rendered and counted on
      the way. */
  method Resolve(count: nat -> int, target: int) returns (r: Resolution, ghost probes: nat)
    ensures r == TargetNotPositive <==> target <= 0
    ensures NonDecreasing(count) ==> (r == Unbracketed <==> target > 0 && count(LAST_DOUBLING) < target)
    ensures r.Units? ==> r.units >= 1
    ensures NonDecreasing(count) && r.Units? ==>
              forall v: nat :: v >= 1 ==> NoFarther(count(r.units), count(v), target)
    ensures NonDecreasing(count) && r.Units? ==>
              forall v: nat :: v >= 1 && count(v) < target && count(v + 1) - target == target - count(v) ==>
                                 r.units <= v
    ensures probes <= 38
  {
    hide NonDecreasing, Before;
    probes := 0;
    if target <= 0 { return TargetNotPositive, probes; }
    var low, high := 1, 1;
    ghost var d: nat := 0;
    while count(high) < target
      invariant 1 <= low <= high == Power(d) && high <= LIMIT && probes == d
      invariant low < high ==> count(low) < target && high == 2 * low
      invariant low == high ==> low == 1
      decreases LIMIT - high
    {
      assert Power(d + 1) == 2 * Power(d);
      WithinLimit(d);
      WithinLimit(d + 1);
      low := high;
      high := high * 2;
      d, probes := d + 1, probes + 1;
      if high > LIMIT { return Unbracketed, probes; }
    }
    WithinLimit(d);
    probes := probes + 1;
    if NonDecreasing(count) { BracketedInTime(count, target, high, d); }
    var candidates: set<nat> := {low, high};
    ghost var k: nat := if d > 0 then d - 1 else 0;
    while low + 1 < high
      invariant 1 <= low <= high
      invariant forall c :: c in candidates ==> c >= 1
      invariant low < high ==> count(low) < target && high - low == Power(k) && probes + k <= 38
      invariant low == high ==> low == 1
      invariant count(high) >= target && probes <= 38
      decreases high - low
    {
      assert k > 0 && Power(k) == 2 * Power(k - 1);
      var mid := (low + high) / 2;
      candidates := candidates + {mid};
      if count(mid) < target {
        low := mid;
      } else {
        high := mid;
      }
      k, probes := k - 1, probes + 1;
    }
    candidates := candidates + {low, high};
    assert low in candidates && high in candidates;
    var units := Closest(count, target, candidates);
    if NonDecreasing(count) { ClosestOfBracket(count, target, low, high, units); }
    r := Units(units);
  }

  /** A bracket that was found within the limit shows that size 2^19 is large enough. */
  lemma BracketedInTime(count: nat -> int, target: int, high: nat, d: nat)
    requires NonDecreasing(count) && high == Power(d) && 1 <= high <= LIMIT && count(high) >= target
    ensures count(LAST_DOUBLING) >= target
  {
    WithinLimit(d);
    Monotone(count, high, LAST_DOUBLING);
  }

  /** Around the target a non-decreasing counter leaves no size closer than the ends of the bracket. */
  lemma ClosestOfBracket(count: nat -> int, target: int, low: nat, high: nat, units: nat)
    requires NonDecreasing(count) && 1 <= low <= high <= low + 1
    requires low < high ==> count(low) < target
    requires (low == high ==> low == 1) && count(high) >= target
    requires Before(count, target, units, low) && Before(count, target, units, high)
    ensures forall v: nat :: v >= 1 ==> NoFarther(count(units), count(v), target)
    ensures forall v: nat :: v >= 1 && count(v) < target && count(v + 1) - target == target - count(v) ==> units <= v
  {
    forall v: nat | v >= 1 && count(v) < target && count(v + 1) - target == target - count(v) ensures units <= v {
      Monotone(count, v + 1, low);
      Monotone(count, high, v);
    }
    forall v: nat | v >= 1 ensures NoFarther(count(units), count(v), target) {
      if v <= low { assert count(v) <= count(low); } else { assert count(high) <= count(v); }
    }
  }
}
