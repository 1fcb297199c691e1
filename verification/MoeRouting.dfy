/** scripts/qwen36_moe_path_compare.py: sorted and unsorted expert routing, fused and split gate/up. */
module MoeRouting {
  import opened Basics
  import opened Vectors

  datatype Result<+T> = Ok(value: T) | Error(message: string)

  // ---- Array shapes --------------------------------------------------------------

  function Flatten<T>(m: seq<seq<T>>): seq<T> {
    if |m| == 0 then [] else m[0] + Flatten(m[1..])
  }

  /** `reshape(rows, cols)` of a flat array. */
  function Unflatten<T>(flat: seq<T>, rows: nat, cols: nat): (m: seq<seq<T>>)
    requires |flat| == rows * cols
    ensures |m| == rows && forall i :: 0 <= i < rows ==> |m[i]| == cols
    decreases rows
  {
    if rows == 0 then []
    else
      assert rows * cols == cols + (rows - 1) * cols;
      [flat[..cols]] + Unflatten(flat[cols..], rows - 1, cols)
  }

  predicate IsMatrix<T>(m: seq<seq<T>>, rows: nat, cols: nat) {
    |m| == rows && forall i :: 0 <= i < rows ==> |m[i]| == cols
  }

  /** Entry (i, j) of a matrix sits at i * cols + j of the flat array. */
  lemma {:induction false} FlattenAt<T>(m: seq<seq<T>>, rows: nat, cols: nat, i: nat, j: nat)
    requires IsMatrix(m, rows, cols) && i < rows && j < cols
    ensures |Flatten(m)| == rows * cols
    ensures i * cols + j < |Flatten(m)| && Flatten(m)[i * cols + j] == m[i][j]
    decreases rows
  {
    FlattenLength(m, rows, cols);
    FlattenLength(m[1..], rows - 1, cols);
    assert rows * cols == cols + (rows - 1) * cols;
    if i > 0 {
      FlattenAt(m[1..], rows - 1, cols, i - 1, j);
      assert i * cols + j == cols + ((i - 1) * cols + j);
    }
  }

  lemma {:induction false} FlattenLength<T>(m: seq<seq<T>>, rows: nat, cols: nat)
    requires IsMatrix(m, rows, cols)
    ensures |Flatten(m)| == rows * cols
    decreases rows
  {
    if rows > 0 {
      FlattenLength(m[1..], rows - 1, cols);
      assert rows * cols == cols + (rows - 1) * cols;
    }
  }

  lemma MulStep(a: nat, b: nat, d: nat)
    requires a < b
    ensures a * d + d <= b * d
  {
    assert b * d == a * d + d + (b - a - 1) * d;
    assert (b - a - 1) * d >= 0;
  }

  lemma DivBounds(v: nat, d: nat)
    requires d > 0
    ensures v / d * d <= v < v / d * d + d
  {
  }

  lemma DivUnique(v: nat, d: nat, q: nat)
    requires q * d <= v < q * d + d
    ensures d > 0 && v / d == q
  {
    var q' := v / d;
    DivBounds(v, d);
    if q' < q {
      MulStep(q', q, d);
      assert false;
    } else if q < q' {
      MulStep(q, q', d);
      assert false;
    }
  }

  // ---- Sorting permutations ------------------------------------------------------

  predicate IsPermutation(p: seq<nat>) {
    && (forall i :: 0 <= i < |p| ==> p[i] < |p|)
    && (forall i, j :: 0 <= i < j < |p| ==> p[i] != p[j])
  }

  /** p lists the positions of keys in non-decreasing order; ties may come in any order. */
  predicate IsArgsort(keys: seq<nat>, p: seq<nat>) {
    && |p| == |keys| && IsPermutation(p)
    && (forall i, j :: 0 <= i < j < |p| ==> keys[p[i]] <= keys[p[j]])
  }

  ghost predicate IsArgsortFunction(argsort: seq<nat> -> seq<nat>) {
    forall keys :: IsArgsort(keys, argsort(keys))
  }

  lemma {:induction false} RisingFromBelow(a: seq<nat>, i: nat)
    requires i < |a| && forall k, l :: 0 <= k < l < |a| ==> a[k] < a[l]
    ensures i <= a[i]
  {
    if i > 0 {
      RisingFromBelow(a, i - 1);
    }
  }

  lemma {:induction false} RisingFromAbove(a: seq<nat>, i: nat)
    requires i < |a| && forall k, l :: 0 <= k < l < |a| ==> a[k] < a[l]
    requires forall k :: 0 <= k < |a| ==> a[k] < |a|
    ensures a[i] <= i
    decreases |a| - i
  {
    if i + 1 < |a| {
      RisingFromAbove(a, i + 1);
    }
  }

  /** The argsort of a permutation is its inverse, on both sides. */
  lemma ArgsortInverts(p: seq<nat>, q: seq<nat>)
    requires IsPermutation(p) && IsArgsort(p, q)
    ensures forall i :: 0 <= i < |p| ==> p[q[i]] == i
    ensures forall i :: 0 <= i < |p| ==> q[p[i]] == i
  {
    var a := seq(|p|, i requires 0 <= i < |p| => p[q[i]]);
    forall k, l | 0 <= k < l < |a| ensures a[k] < a[l] {
      assert p[q[k]] <= p[q[l]] && q[k] != q[l];
    }
    forall i | 0 <= i < |p| ensures p[q[i]] == i {
      RisingFromBelow(a, i);
      RisingFromAbove(a, i);
      assert a[i] == i;
    }
    forall i | 0 <= i < |p| ensures q[p[i]] == i {
      assert p[q[p[i]]] == p[i];
    }
  }

  // ---- Expert projections --------------------------------------------------------

  datatype Mode = Affine | Mxfp4 | Mxfp8

  /** Quantization parameters of a projection. */
  datatype Format = Format(groupSize: nat, bits: nat, mode: Mode)

  /** An array of three dimensions. The shape belongs to the array: it does not depend on there being entries. */
  datatype Array3<T> = Array3(entries: seq<seq<seq<T>>>, experts: nat, outputs: nat, width: nat)

  predicate IsArray3<T>(a: Array3<T>) {
    && IsMatrix(a.entries, a.experts, a.outputs)
    && forall e, o :: 0 <= e < a.experts && 0 <= o < a.outputs ==> |a.entries[e][o]| == a.width
  }

  predicate SameShape<T, U>(a: Array3<T>, b: Array3<U>) {
    a.experts == b.experts && a.outputs == b.outputs && a.width == b.width
  }

  /** Quantized weights, indexed by expert, output and place in the packed row. */
  datatype Projection = Projection(weight: Array3<int>, scales: Array3<real>, biases: Option<Array3<real>>,
                                   inputDims: nat, outputDims: nat, format: Format)

  /** One output of the quantized product: input row against the quantized weight row of that output. */
  type Kernel = (Format, Vec, seq<int>, Vec, Option<Vec>) -> real

  /** The storage contract of the quantization modes: only affine storage has biases, and the block formats fix
      bits and group size. */
  predicate ModeAllows(format: Format, hasBiases: bool) {
    match format.mode
    case Affine => hasBiases && format.groupSize > 0
    case Mxfp4 => !hasBiases && format.groupSize == 32 && format.bits == 4
    case Mxfp8 => !hasBiases && format.groupSize == 32 && format.bits == 8
  }

  /** The shapes of a quantized projection: a row packs inputDims entries into words of 32 bits and has one scale
      for every group. */
  predicate IsProjection(p: Projection) {
    && IsArray3(p.weight) && IsArray3(p.scales) && (p.biases.Some? ==> IsArray3(p.biases.value))
    && p.inputDims > 0 && p.weight.outputs == p.outputDims
    && p.weight.width * 32 == p.inputDims * p.format.bits
    && p.scales.experts == p.weight.experts && p.scales.outputs == p.outputDims
    && p.scales.width * p.format.groupSize == p.inputDims
    && (p.biases.Some? ==> SameShape(p.biases.value, p.scales))
    && ModeAllows(p.format, p.biases.Some?)
  }

  /** Expert e of p applied to a row. */
  function Project(kernel: Kernel, p: Projection, e: nat, x: Vec): (r: Vec)
    requires IsProjection(p) && e < p.weight.experts
    ensures |r| == p.outputDims
  {
    seq(p.outputDims, o requires 0 <= o < p.outputDims =>
      kernel(p.format, x, p.weight.entries[e][o], p.scales.entries[e][o],
             if p.biases.Some? then Some(p.biases.value.entries[e][o]) else None))
  }

  predicate Sorted(s: seq<nat>) {
    forall i, j :: 0 <= i < j < |s| ==> s[i] <= s[j]
  }

  predicate AreExperts(s: seq<nat>, experts: nat) {
    forall i :: 0 <= i < |s| ==> s[i] < experts
  }

  /** `gather_qmm` with one expert index per row. The kernel may be told that the indices are sorted,
      but only if they are. */
  function GatherQmm(kernel: Kernel, rows: seq<Vec>, p: Projection, indices: seq<nat>,
                     sortedIndices: bool): (r: seq<Vec>)
    requires IsProjection(p) && |rows| == |indices| && AreExperts(indices, p.weight.experts)
    requires sortedIndices ==> Sorted(indices)
    ensures |r| == |rows| && forall i :: 0 <= i < |r| ==> |r[i]| == p.outputDims
  {
    seq(|rows|, i requires 0 <= i < |rows| => Project(kernel, p, indices[i], rows[i]))
  }

  /** `concatenate` along axis 1: all other dimensions must agree. */
  function Concatenate<T>(a: Array3<T>, b: Array3<T>): (r: Result<Array3<T>>)
    requires IsArray3(a) && IsArray3(b)
    ensures r.Ok? <==> a.experts == b.experts && a.width == b.width
    ensures r.Ok? ==> IsArray3(r.value) && SameShape(r.value, a.(outputs := a.outputs + b.outputs))
  {
    if a.experts != b.experts || a.width != b.width then Error("dimensions must match except along the axis")
    else
      Ok(Array3(seq(a.experts, e requires 0 <= e < a.experts => a.entries[e] + b.entries[e]),
                a.experts, a.outputs + b.outputs, a.width))
  }

  /** The fused projection; the gate's width says where to cut its output. */
  datatype Fused = Fused(projection: Projection, intermediate: nat)

  /** `build_fused_gate_up`. The quantization parameters of the result are those of the gate. */
  function BuildFusedGateUp(gate: Projection, up: Projection): (r: Result<Fused>)
    requires IsProjection(gate) && IsProjection(up)
    ensures r.Ok? <==> && (gate.biases.None? <==> up.biases.None?)
                       && gate.weight.experts == up.weight.experts
                       && gate.weight.width == up.weight.width && gate.scales.width == up.scales.width
    ensures r.Ok? ==> IsProjection(r.value.projection)
    ensures r.Ok? ==> r.value.projection.weight.experts == gate.weight.experts
    ensures r.Ok? ==> r.value.intermediate == gate.outputDims <= r.value.projection.outputDims
  {
    if gate.biases.None? != up.biases.None? then Error("gate/up quantized biases presence mismatch")
    else
      match (Concatenate(gate.weight, up.weight), Concatenate(gate.scales, up.scales))
      case (Ok(weight), Ok(scales)) =>
        var biases :=
          if gate.biases.None? then None else Some(Concatenate(gate.biases.value, up.biases.value).value);
        Ok(Fused(Projection(weight, scales, biases, gate.inputDims, gate.outputDims + up.outputDims, gate.format),
                 gate.outputDims))
      case _ => Error("dimensions must match except along the axis")
  }

  lemma Cancel(k: nat, a: nat, b: nat)
    requires k > 0 && k * a == k * b
    ensures a == b
  {
    if a < b {
      MulStep(a, b, k);
      assert false;
    } else if b < a {
      MulStep(b, a, k);
      assert false;
    }
  }

  /** Projections of rows of the same length can be fused exactly when they use the same quantization parameters,
      although the code looks at none of them: the row widths of weights and scales give bits and group size
      away, and with them and the presence of biases the mode. */
  lemma FusesIffSameFormat(gate: Projection, up: Projection)
    requires IsProjection(gate) && IsProjection(up)
    requires gate.inputDims == up.inputDims && gate.weight.experts == up.weight.experts
    ensures BuildFusedGateUp(gate, up).Ok? <==> gate.format == up.format
  {
    hide IsArray3, SameShape, BuildFusedGateUp;
    if BuildFusedGateUp(gate, up).Ok? {
      Cancel(gate.inputDims, gate.format.bits, up.format.bits);
      assert gate.scales.width > 0;
      Cancel(gate.scales.width, gate.format.groupSize, up.format.groupSize);
    } else if gate.format == up.format {
      Cancel(gate.format.groupSize, gate.scales.width, up.scales.width);
      assert false;
    }
  }

  /** Slicing the fused output recovers both projections. */
  lemma FusedSlices(kernel: Kernel, gate: Projection, up: Projection, e: nat, x: Vec)
    requires IsProjection(gate) && IsProjection(up) && gate.inputDims == up.inputDims
    requires BuildFusedGateUp(gate, up).Ok? && e < gate.weight.experts
    ensures var f := BuildFusedGateUp(gate, up).value;
            var y := Project(kernel, f.projection, e, x);
            && y[..f.intermediate] == Project(kernel, gate, e, x)
            && y[f.intermediate..] == Project(kernel, up, e, x)
  {
    FusesIffSameFormat(gate, up);
  }

  // ---- The routed MLP ------------------------------------------------------------

  type Gating = (Vec, Vec) -> Vec

  datatype Mlp = Mlp(gate: Projection, up: Projection, down: Projection, experts: nat, hidden: nat)

  predicate IsMlp(mlp: Mlp) {
    && IsProjection(mlp.gate) && IsProjection(mlp.up) && IsProjection(mlp.down)
    && mlp.gate.weight.experts == mlp.up.weight.experts == mlp.down.weight.experts == mlp.experts
    && mlp.gate.inputDims == mlp.up.inputDims == mlp.down.outputDims == mlp.hidden
  }

  /** Reference: one expert on one token. */
  function Expert(kernel: Kernel, swiglu: Gating, mlp: Mlp, e: nat, x: Vec): (r: Vec)
    requires IsMlp(mlp) && e < mlp.experts
    ensures |r| == mlp.hidden
  {
    Project(kernel, mlp.down, e,
            swiglu(Project(kernel, mlp.gate, e, x), Project(kernel, mlp.up, e, x)))
  }

  /** What the quantized product of a projection p of expert e gives for input row x, output by output. */
  predicate IsProduct(y: Vec, kernel: Kernel, p: Projection, e: nat, x: Vec)
    requires IsProjection(p) && e < p.weight.experts
  {
    && |y| == p.weight.outputs
    && forall o :: 0 <= o < |y| ==>
         y[o] == kernel(p.format, x, p.weight.entries[e][o], p.scales.entries[e][o],
                        if p.biases.None? then None else Some(p.biases.value.entries[e][o]))
  }

  /** One expert: the down product of the gated product of gate and up, each with the rows of that expert. */
  lemma ExpertIsProducts(kernel: Kernel, swiglu: Gating, mlp: Mlp, e: nat, x: Vec, gateOut: Vec, upOut: Vec)
    requires IsMlp(mlp) && e < mlp.experts
    requires IsProduct(gateOut, kernel, mlp.gate, e, x) && IsProduct(upOut, kernel, mlp.up, e, x)
    ensures IsProduct(Expert(kernel, swiglu, mlp, e, x), kernel, mlp.down, e, swiglu(gateOut, upOut))
  {
    assert gateOut == Project(kernel, mlp.gate, e, x);
    assert upOut == Project(kernel, mlp.up, e, x);
  }

  /** Gate and up outputs, by two products or by one product that is then cut. */
  function GateUp(kernel: Kernel, mlp: Mlp, fused: Fused, rows: seq<Vec>, indices: seq<nat>, useFused: bool,
                  sortedIndices: bool): (r: (seq<Vec>, seq<Vec>))
    requires IsMlp(mlp) && IsProjection(fused.projection)
    requires fused.projection.weight.experts == mlp.experts
    requires fused.intermediate <= fused.projection.outputDims
    requires |rows| == |indices| && AreExperts(indices, mlp.experts)
    requires sortedIndices ==> Sorted(indices)
    ensures |r.0| == |r.1| == |rows|
  {
    if useFused then
      var gateUp := GatherQmm(kernel, rows, fused.projection, indices, sortedIndices);
      (seq(|rows|, i requires 0 <= i < |rows| => gateUp[i][..fused.intermediate]),
       seq(|rows|, i requires 0 <= i < |rows| => gateUp[i][fused.intermediate..]))
    else
      (GatherQmm(kernel, rows, mlp.gate, indices, sortedIndices),
       GatherQmm(kernel, rows, mlp.up, indices, sortedIndices))
  }

  /** The switch on a list of (row, expert) pairs. */
  function Switch(kernel: Kernel, swiglu: Gating, mlp: Mlp, fused: Fused, rows: seq<Vec>, indices: seq<nat>,
                  useFused: bool, sortedIndices: bool): (r: seq<Vec>)
    requires IsMlp(mlp) && IsProjection(fused.projection)
    requires fused.projection.weight.experts == mlp.experts
    requires fused.intermediate <= fused.projection.outputDims
    requires |rows| == |indices| && AreExperts(indices, mlp.experts)
    requires sortedIndices ==> Sorted(indices)
    ensures |r| == |rows| && forall i :: 0 <= i < |r| ==> |r[i]| == mlp.hidden
  {
    var (gateOut, upOut) := GateUp(kernel, mlp, fused, rows, indices, useFused, sortedIndices);
    var act := seq(|rows|, i requires 0 <= i < |rows| => swiglu(gateOut[i], upOut[i]));
    GatherQmm(kernel, act, mlp.down, indices, sortedIndices)
  }

  function Take<T>(a: seq<T>, p: seq<nat>): (r: seq<T>)
    requires forall i :: 0 <= i < |p| ==> p[i] < |a|
    ensures |r| == |p| && forall i :: 0 <= i < |p| ==> r[i] == a[p[i]]
  {
    seq(|p|, i requires 0 <= i < |p| => a[p[i]])
  }

  lemma TokenInRange(r: nat, tokens: nat, topK: nat)
    requires topK > 0 && r < tokens * topK
    ensures r / topK < tokens
  {
  }

  /** The rows of the tokens behind a list of (token, slot) positions: position r belongs to token r // top_k. */
  function TokenRows(x: seq<Vec>, positions: seq<nat>, topK: nat): (r: seq<Vec>)
    requires topK > 0 && forall i :: 0 <= i < |positions| ==> positions[i] < |x| * topK
    ensures |r| == |positions|
    ensures forall i :: 0 <= i < |r| ==> positions[i] / topK < |x| && r[i] == x[positions[i] / topK]
  {
    if |positions| == 0 then []
    else
      TokenInRange(positions[0], |x|, topK);
      [x[positions[0] / topK]] + TokenRows(x, positions[1..], topK)
  }

  ghost predicate IsRouting(mlp: Mlp, fused: Fused, x: seq<Vec>, inds: seq<seq<nat>>, topK: nat) {
    && IsMlp(mlp) && topK > 0 && IsMatrix(inds, |x|, topK)
    && (forall t :: 0 <= t < |x| ==> AreExperts(inds[t], mlp.experts))
    && BuildFusedGateUp(mlp.gate, mlp.up) == Ok(fused)
  }

  lemma FlatExperts(inds: seq<seq<nat>>, rows: nat, cols: nat, experts: nat)
    requires IsMatrix(inds, rows, cols) && forall t :: 0 <= t < rows ==> AreExperts(inds[t], experts)
    ensures |Flatten(inds)| == rows * cols && AreExperts(Flatten(inds), experts)
    decreases rows
  {
    if rows > 0 {
      FlatExperts(inds[1..], rows - 1, cols, experts);
      FlattenLength(inds, rows, cols);
    }
  }

  /** Down projections of the sorted rows, brought back to the order of the positions. */
  ghost function SortedDown(kernel: Kernel, swiglu: Gating, argsort: seq<nat> -> seq<nat>, mlp: Mlp, fused: Fused,
                            x: seq<Vec>, flatTopk: seq<nat>, topK: nat, useFused: bool): (r: seq<Vec>)
    requires IsMlp(mlp) && BuildFusedGateUp(mlp.gate, mlp.up) == Ok(fused) && IsArgsortFunction(argsort)
    requires topK > 0 && |flatTopk| == |x| * topK && AreExperts(flatTopk, mlp.experts)
    ensures |r| == |flatTopk|
  {
    var sortPerm := argsort(flatTopk);
    assert IsArgsort(flatTopk, sortPerm);
    var sortedTopk := Take(flatTopk, sortPerm);
    var sortedX := TokenRows(x, sortPerm, topK);
    var downRaw := Switch(kernel, swiglu, mlp, fused, sortedX, sortedTopk, useFused, true);
    var invPerm := argsort(sortPerm);
    assert IsArgsort(sortPerm, invPerm);
    Take(downRaw, invPerm)
  }

  /** The branch that sorts the tokens by expert, computes, and undoes the sort. */
  ghost function SortedRoute(kernel: Kernel, swiglu: Gating, argsort: seq<nat> -> seq<nat>, mlp: Mlp, fused: Fused,
                             x: seq<Vec>, inds: seq<seq<nat>>, topK: nat, useFused: bool): (r: seq<seq<Vec>>)
    requires IsRouting(mlp, fused, x, inds, topK) && IsArgsortFunction(argsort)
    ensures IsMatrix(r, |x|, topK)
  {
    FlatExperts(inds, |x|, topK, mlp.experts);
    Unflatten(SortedDown(kernel, swiglu, argsort, mlp, fused, x, Flatten(inds), topK, useFused), |x|, topK)
  }

  /** The branch that keeps the tokens in place; every token row is repeated for each of its experts. */
  ghost function UnsortedRoute(kernel: Kernel, swiglu: Gating, mlp: Mlp, fused: Fused, x: seq<Vec>,
                               inds: seq<seq<nat>>, topK: nat, useFused: bool): (r: seq<seq<Vec>>)
    requires IsRouting(mlp, fused, x, inds, topK)
    ensures IsMatrix(r, |x|, topK)
  {
    seq(|x|, t requires 0 <= t < |x| =>
      Switch(kernel, swiglu, mlp, fused, Repeat(x[t], topK), inds[t], useFused, false))
  }

  function Repeat(v: Vec, n: nat): (r: seq<Vec>)
    ensures |r| == n && forall i :: 0 <= i < n ==> r[i] == v
  {
    seq(n, _ => v)
  }

  lemma SwitchIsExpert(kernel: Kernel, swiglu: Gating, mlp: Mlp, fused: Fused, rows: seq<Vec>, indices: seq<nat>,
                       useFused: bool, sortedIndices: bool, i: nat)
    requires IsMlp(mlp) && BuildFusedGateUp(mlp.gate, mlp.up) == Ok(fused)
    requires |rows| == |indices| && AreExperts(indices, mlp.experts)
    requires sortedIndices ==> Sorted(indices)
    requires i < |rows|
    ensures Switch(kernel, swiglu, mlp, fused, rows, indices, useFused, sortedIndices)[i]
         == Expert(kernel, swiglu, mlp, indices[i], rows[i])
  {
    hide Project, BuildFusedGateUp;
    if useFused {
      FusedSlices(kernel, mlp.gate, mlp.up, indices[i], rows[i]);
    }
  }

  /** Reference routing: slot k of token t is its expert applied to its row. */
  ghost predicate RoutesToExperts(r: seq<seq<Vec>>, kernel: Kernel, swiglu: Gating, mlp: Mlp, x: seq<Vec>,
                                  inds: seq<seq<nat>>, topK: nat)
    requires IsMlp(mlp) && IsMatrix(inds, |x|, topK) && forall t :: 0 <= t < |x| ==> AreExperts(inds[t], mlp.experts)
  {
    && IsMatrix(r, |x|, topK)
    && forall t, k :: 0 <= t < |x| && 0 <= k < topK ==>
         inds[t][k] < mlp.experts && r[t][k] == Expert(kernel, swiglu, mlp, inds[t][k], x[t])
  }

  lemma UnsortedRouteIsReference(kernel: Kernel, swiglu: Gating, mlp: Mlp, fused: Fused, x: seq<Vec>,
                                 inds: seq<seq<nat>>, topK: nat, useFused: bool)
    requires IsRouting(mlp, fused, x, inds, topK)
    ensures RoutesToExperts(UnsortedRoute(kernel, swiglu, mlp, fused, x, inds, topK, useFused),
                            kernel, swiglu, mlp, x, inds, topK)
  {
    hide Switch, Expert, BuildFusedGateUp;
    forall t, k | 0 <= t < |x| && 0 <= k < topK
      ensures UnsortedRoute(kernel, swiglu, mlp, fused, x, inds, topK, useFused)[t][k]
           == Expert(kernel, swiglu, mlp, inds[t][k], x[t])
    {
      SwitchIsExpert(kernel, swiglu, mlp, fused, Repeat(x[t], topK), inds[t], useFused, false, k);
    }
  }

  lemma {:induction false} UnflattenAt<T>(flat: seq<T>, rows: nat, cols: nat, i: nat, j: nat)
    requires |flat| == rows * cols && i < rows && j < cols
    ensures i * cols + j < |flat| && Unflatten(flat, rows, cols)[i][j] == flat[i * cols + j]
    decreases rows
  {
    MulStep(i, rows, cols);
    if i > 0 {
      UnflattenTail(flat, rows, cols);
      UnflattenAt(flat[cols..], rows - 1, cols, i - 1, j);
      assert i * cols + j == cols + ((i - 1) * cols + j);
    }
  }

  lemma UnflattenTail<T>(flat: seq<T>, rows: nat, cols: nat)
    requires |flat| == rows * cols && rows > 0
    ensures cols <= |flat| && |flat[cols..]| == (rows - 1) * cols
    ensures Unflatten(flat, rows, cols) == [flat[..cols]] + Unflatten(flat[cols..], rows - 1, cols)
  {
  }

  /** The second argsort finds the place to which the first one moved position r. */
  lemma PlaceOf(argsort: seq<nat> -> seq<nat>, keys: seq<nat>, r: nat)
    requires IsArgsortFunction(argsort) && r < |keys|
    ensures IsArgsort(keys, argsort(keys)) && IsArgsort(argsort(keys), argsort(argsort(keys)))
    ensures argsort(keys)[argsort(argsort(keys))[r]] == r
  {
    var p := argsort(keys);
    assert IsArgsort(keys, p) && IsArgsort(p, argsort(p));
    ArgsortInverts(p, argsort(p));
  }

  /** Position t * top_k + k of the flat routing is slot k of token t. */
  lemma PositionOf(inds: seq<seq<nat>>, tokens: nat, topK: nat, t: nat, k: nat)
    requires IsMatrix(inds, tokens, topK) && t < tokens && k < topK
    ensures t * topK + k < |Flatten(inds)| == tokens * topK
    ensures Flatten(inds)[t * topK + k] == inds[t][k] && (t * topK + k) / topK == t
  {
    hide Flatten;
    FlattenAt(inds, tokens, topK, t, k);
    DivUnique(t * topK + k, topK, t);
  }

  /** Position r comes back with its own expert on its own token, whatever place the sort gave it. */
  lemma SortedDownEntry(kernel: Kernel, swiglu: Gating, argsort: seq<nat> -> seq<nat>, mlp: Mlp, fused: Fused,
                        x: seq<Vec>, flatTopk: seq<nat>, topK: nat, useFused: bool, r: nat)
    requires IsMlp(mlp) && BuildFusedGateUp(mlp.gate, mlp.up) == Ok(fused) && IsArgsortFunction(argsort)
    requires topK > 0 && |flatTopk| == |x| * topK && AreExperts(flatTopk, mlp.experts) && r < |flatTopk|
    ensures r / topK < |x|
    ensures SortedDown(kernel, swiglu, argsort, mlp, fused, x, flatTopk, topK, useFused)[r]
         == Expert(kernel, swiglu, mlp, flatTopk[r], x[r / topK])
  {
    hide Switch, Expert, BuildFusedGateUp, Sorted, IsArgsortFunction, IsMlp;
    PlaceOf(argsort, flatTopk, r);
    TokenInRange(r, |x|, topK);
    var sortPerm := argsort(flatTopk);
    SortedKeys(flatTopk, sortPerm);
    SwitchIsExpert(kernel, swiglu, mlp, fused, TokenRows(x, sortPerm, topK), Take(flatTopk, sortPerm), useFused, true,
                   argsort(sortPerm)[r]);
  }

  /** Entry (t, k) of the sorted route: the inverse permutation leads to the place in sorted order that holds
      position t * top_k + k, hence token t with its own expert. */
  lemma SortedRouteEntry(kernel: Kernel, swiglu: Gating, argsort: seq<nat> -> seq<nat>, mlp: Mlp, fused: Fused,
                         x: seq<Vec>, inds: seq<seq<nat>>, topK: nat, useFused: bool, t: nat, k: nat)
    requires IsRouting(mlp, fused, x, inds, topK) && IsArgsortFunction(argsort)
    requires t < |x| && k < topK
    ensures inds[t][k] < mlp.experts
    ensures SortedRoute(kernel, swiglu, argsort, mlp, fused, x, inds, topK, useFused)[t][k]
         == Expert(kernel, swiglu, mlp, inds[t][k], x[t])
  {
    hide SortedDown, Expert, BuildFusedGateUp, Flatten, Unflatten, IsArgsortFunction, IsMlp;
    var flatTopk := Flatten(inds);
    FlatExperts(inds, |x|, topK, mlp.experts);
    PositionOf(inds, |x|, topK, t, k);
    SortedDownEntry(kernel, swiglu, argsort, mlp, fused, x, flatTopk, topK, useFused, t * topK + k);
    UnflattenAt(SortedDown(kernel, swiglu, argsort, mlp, fused, x, flatTopk, topK, useFused), |x|, topK, t, k);
  }

  lemma SortedKeys(keys: seq<nat>, p: seq<nat>)
    requires IsArgsort(keys, p)
    ensures Sorted(Take(keys, p))
  {
  }

  lemma SortedRouteIsReference(kernel: Kernel, swiglu: Gating, argsort: seq<nat> -> seq<nat>, mlp: Mlp, fused: Fused,
                               x: seq<Vec>, inds: seq<seq<nat>>, topK: nat, useFused: bool)
    requires IsRouting(mlp, fused, x, inds, topK) && IsArgsortFunction(argsort)
    ensures RoutesToExperts(SortedRoute(kernel, swiglu, argsort, mlp, fused, x, inds, topK, useFused),
                            kernel, swiglu, mlp, x, inds, topK)
  {
    hide SortedRoute, Expert, BuildFusedGateUp;
    forall t, k | 0 <= t < |x| && 0 <= k < topK
      ensures inds[t][k] < mlp.experts
      ensures SortedRoute(kernel, swiglu, argsort, mlp, fused, x, inds, topK, useFused)[t][k]
           == Expert(kernel, swiglu, mlp, inds[t][k], x[t])
    {
      SortedRouteEntry(kernel, swiglu, argsort, mlp, fused, x, inds, topK, useFused, t, k);
    }
  }

  // ---- The whole block -----------------------------------------------------------

  /** Score-weighted sum of the expert outputs of one token. */
  function Routed(down: seq<Vec>, scores: Vec, hidden: nat): (r: Vec)
    requires |down| == |scores| && forall k :: 0 <= k < |down| ==> |down[k]| == hidden
    ensures |r| == hidden
  {
    if |down| == 0 then seq(hidden, _ => 0.0)
    else Add(Scale(scores[0], down[0]), Routed(down[1..], scores[1..], hidden))
  }

  function Column(m: seq<Vec>, j: nat): (r: Vec)
    requires forall k :: 0 <= k < |m| ==> j < |m[k]|
    ensures |r| == |m| && forall k :: 0 <= k < |m| ==> r[k] == m[k][j]
  {
    seq(|m|, k requires 0 <= k < |m| => m[k][j])
  }

  /** Entry j of the sum is the inner product of the scores with the j-th entries. */
  lemma {:induction false} RoutedEntry(down: seq<Vec>, scores: Vec, hidden: nat, j: nat)
    requires |down| == |scores| && (forall k :: 0 <= k < |down| ==> |down[k]| == hidden) && j < hidden
    ensures Routed(down, scores, hidden)[j] == Dot(scores, Column(down, j))
  {
    if |down| > 0 {
      RoutedEntry(down[1..], scores[1..], hidden, j);
      assert Column(down, j)[1..] == Column(down[1..], j);
    }
  }

  /** What the router decides for a token, and the gated shared expert: both act row by row. */
  datatype Router = Router(scores: Vec -> Vec, indices: Vec -> seq<nat>, shared: Vec -> Vec)

  ghost predicate IsRouter(router: Router, mlp: Mlp, topK: nat) {
    forall x :: |router.scores(x)| == topK && |router.indices(x)| == topK
             && AreExperts(router.indices(x), mlp.experts) && |router.shared(x)| == mlp.hidden
  }

  function Indices(router: Router, x: seq<Vec>): (r: seq<seq<nat>>)
    ensures |r| == |x|
  {
    seq(|x|, t requires 0 <= t < |x| => router.indices(x[t]))
  }

  /** `ironmlx_shape_mlp` on x of shape (batch, sequence). */
  ghost function ShapeMlp(kernel: Kernel, swiglu: Gating, argsort: seq<nat> -> seq<nat>, mlp: Mlp, fused: Fused,
                          router: Router, x: seq<seq<Vec>>, batch: nat, length: nat, topK: nat,
                          sortedThreshold: int, useFused: bool): (r: seq<seq<Vec>>)
    requires IsMatrix(x, batch, length) && IsRouter(router, mlp, topK) && IsArgsortFunction(argsort)
    requires IsRouting(mlp, fused, Flatten(x), Indices(router, Flatten(x)), topK)
    ensures IsMatrix(r, batch, length)
  {
    FlattenLength(x, batch, length);
    var flatX := Flatten(x);
    var inds := Indices(router, flatX);
    var downOut :=
      if |flatX| * topK >= sortedThreshold
      then SortedRoute(kernel, swiglu, argsort, mlp, fused, flatX, inds, topK, useFused)
      else UnsortedRoute(kernel, swiglu, mlp, fused, flatX, inds, topK, useFused);
    RouteRows(kernel, swiglu, argsort, mlp, fused, flatX, inds, topK, useFused);
    Unflatten(Finish(downOut, router, flatX, mlp, topK), batch, length)
  }

  function Finish(down: seq<seq<Vec>>, router: Router, x: seq<Vec>, mlp: Mlp, topK: nat): (r: seq<Vec>)
    requires IsMatrix(down, |x|, topK)
    requires forall t, k :: 0 <= t < |x| && 0 <= k < topK ==> |down[t][k]| == mlp.hidden
    requires forall t :: 0 <= t < |x| ==> |router.scores(x[t])| == topK && |router.shared(x[t])| == mlp.hidden
    ensures |r| == |x|
  {
    seq(|x|, t requires 0 <= t < |x| =>
      Add(Routed(down[t], router.scores(x[t]), mlp.hidden), router.shared(x[t])))
  }

  lemma RouteRows(kernel: Kernel, swiglu: Gating, argsort: seq<nat> -> seq<nat>, mlp: Mlp, fused: Fused,
                  x: seq<Vec>, inds: seq<seq<nat>>, topK: nat, useFused: bool)
    requires IsRouting(mlp, fused, x, inds, topK) && IsArgsortFunction(argsort)
    ensures forall t, k :: 0 <= t < |x| && 0 <= k < topK ==>
              |SortedRoute(kernel, swiglu, argsort, mlp, fused, x, inds, topK, useFused)[t][k]| == mlp.hidden
    ensures forall t, k :: 0 <= t < |x| && 0 <= k < topK ==>
              |UnsortedRoute(kernel, swiglu, mlp, fused, x, inds, topK, useFused)[t][k]| == mlp.hidden
  {
    hide SortedRoute, UnsortedRoute, Expert, BuildFusedGateUp;
    SortedRouteIsReference(kernel, swiglu, argsort, mlp, fused, x, inds, topK, useFused);
    UnsortedRouteIsReference(kernel, swiglu, mlp, fused, x, inds, topK, useFused);
  }

  /** One token through the reference block. */
  function TokenMlp(kernel: Kernel, swiglu: Gating, mlp: Mlp, router: Router, x: Vec): (r: Vec)
    requires IsMlp(mlp) && AreExperts(router.indices(x), mlp.experts)
    requires |router.scores(x)| == |router.indices(x)| && |router.shared(x)| == mlp.hidden
    ensures |r| == mlp.hidden
  {
    var inds := router.indices(x);
    Add(Routed(seq(|inds|, k requires 0 <= k < |inds| => Expert(kernel, swiglu, mlp, inds[k], x)),
               router.scores(x), mlp.hidden),
        router.shared(x))
  }

  /** outs are the outputs of the experts of token x, in the order of its scores. */
  predicate AreExpertOutputs(outs: seq<Vec>, kernel: Kernel, swiglu: Gating, mlp: Mlp, router: Router, x: Vec) {
    && IsMlp(mlp) && AreExperts(router.indices(x), mlp.experts)
    && |router.scores(x)| == |router.indices(x)| == |outs| && |router.shared(x)| == mlp.hidden
    && forall k :: 0 <= k < |outs| ==> outs[k] == Expert(kernel, swiglu, mlp, router.indices(x)[k], x)
  }

  /** y is the output for token x: in every entry the outputs of its experts weighted by their scores, plus the
      shared expert. */
  predicate IsWeighted(y: Vec, outs: seq<Vec>, router: Router, x: Vec, hidden: nat) {
    && |y| == hidden == |router.shared(x)| && |outs| == |router.scores(x)|
    && (forall k :: 0 <= k < |outs| ==> |outs[k]| == hidden)
    && forall j :: 0 <= j < hidden ==> y[j] == Dot(router.scores(x), Column(outs, j)) + router.shared(x)[j]
  }

  lemma TokenIsWeighted(kernel: Kernel, swiglu: Gating, mlp: Mlp, router: Router, x: Vec, outs: seq<Vec>)
    requires AreExpertOutputs(outs, kernel, swiglu, mlp, router, x)
    ensures IsWeighted(TokenMlp(kernel, swiglu, mlp, router, x), outs, router, x, mlp.hidden)
  {
    hide Expert, Routed, Dot, Column, IsMlp;
    var inds := router.indices(x);
    assert outs == seq(|inds|, k requires 0 <= k < |inds| => Expert(kernel, swiglu, mlp, inds[k], x));
    forall j | 0 <= j < mlp.hidden
      ensures Routed(outs, router.scores(x), mlp.hidden)[j] == Dot(router.scores(x), Column(outs, j))
    {
      RoutedEntry(outs, router.scores(x), mlp.hidden, j);
    }
  }

  lemma RowsToTokens(down: seq<seq<Vec>>, kernel: Kernel, swiglu: Gating, mlp: Mlp, router: Router, x: seq<Vec>,
                     topK: nat, t: nat)
    requires IsMlp(mlp) && IsRouter(router, mlp, topK) && t < |x|
    requires RoutesToExperts(down, kernel, swiglu, mlp, x, Indices(router, x), topK)
    ensures Finish(down, router, x, mlp, topK)[t] == TokenMlp(kernel, swiglu, mlp, router, x[t])
  {
    hide Expert, Routed;
    var inds := router.indices(x[t]);
    assert Indices(router, x)[t] == inds;
    assert down[t] == seq(|inds|, k requires 0 <= k < |inds| => Expert(kernel, swiglu, mlp, inds[k], x[t]));
  }

  /** Whatever the threshold, the batch, the routing and the argsort, every token gets the reference result. */
  lemma ShapeMlpIsReference(kernel: Kernel, swiglu: Gating, argsort: seq<nat> -> seq<nat>, mlp: Mlp, fused: Fused,
                            router: Router, x: seq<seq<Vec>>, batch: nat, length: nat, topK: nat,
                            sortedThreshold: int, useFused: bool, b: nat, l: nat)
    requires IsMatrix(x, batch, length) && IsRouter(router, mlp, topK) && IsArgsortFunction(argsort)
    requires IsRouting(mlp, fused, Flatten(x), Indices(router, Flatten(x)), topK)
    requires b < batch && l < length
    ensures ShapeMlp(kernel, swiglu, argsort, mlp, fused, router, x, batch, length, topK, sortedThreshold,
                     useFused)[b][l]
         == TokenMlp(kernel, swiglu, mlp, router, x[b][l])
  {
    hide SortedRoute, UnsortedRoute, Expert, BuildFusedGateUp, TokenMlp, Unflatten, Flatten, RoutesToExperts;
    FlattenLength(x, batch, length);
    var flatX := Flatten(x);
    var inds := Indices(router, flatX);
    FlattenAt(x, batch, length, b, l);
    var down :=
      if |flatX| * topK >= sortedThreshold
      then SortedRoute(kernel, swiglu, argsort, mlp, fused, flatX, inds, topK, useFused)
      else UnsortedRoute(kernel, swiglu, mlp, fused, flatX, inds, topK, useFused);
    SortedRouteIsReference(kernel, swiglu, argsort, mlp, fused, flatX, inds, topK, useFused);
    UnsortedRouteIsReference(kernel, swiglu, mlp, fused, flatX, inds, topK, useFused);
    RowsToTokens(down, kernel, swiglu, mlp, router, flatX, topK, b * length + l);
    RouteRows(kernel, swiglu, argsort, mlp, fused, flatX, inds, topK, useFused);
    UnflattenAt(Finish(down, router, flatX, mlp, topK), batch, length, b, l);
  }

  /** Every token comes out as the outputs of its own experts, weighted by its scores, plus its shared expert. */
  lemma ShapeMlpIsWeighted(kernel: Kernel, swiglu: Gating, argsort: seq<nat> -> seq<nat>, mlp: Mlp, fused: Fused,
                           router: Router, x: seq<seq<Vec>>, batch: nat, length: nat, topK: nat,
                           sortedThreshold: int, useFused: bool, b: nat, l: nat, outs: seq<Vec>)
    requires IsMatrix(x, batch, length) && IsRouter(router, mlp, topK) && IsArgsortFunction(argsort)
    requires IsRouting(mlp, fused, Flatten(x), Indices(router, Flatten(x)), topK)
    requires b < batch && l < length
    requires AreExpertOutputs(outs, kernel, swiglu, mlp, router, x[b][l])
    ensures IsWeighted(ShapeMlp(kernel, swiglu, argsort, mlp, fused, router, x, batch, length, topK, sortedThreshold,
                                useFused)[b][l],
                       outs, router, x[b][l], mlp.hidden)
  {
    hide ShapeMlp, Flatten, IsArgsortFunction, TokenMlp, IsWeighted, IsRouting, IsRouter;
    ShapeMlpIsReference(kernel, swiglu, argsort, mlp, fused, router, x, batch, length, topK, sortedThreshold, useFused,
                        b, l);
    TokenIsWeighted(kernel, swiglu, mlp, router, x[b][l], outs);
  }

  /** Neither the threshold nor the fusion nor the tie-breaking of the sort changes the answer. */
  lemma ThresholdAndFusionDoNotMatter(kernel: Kernel, swiglu: Gating, argsort: seq<nat> -> seq<nat>,
                                      argsort': seq<nat> -> seq<nat>, mlp: Mlp, fused: Fused, router: Router,
                                      x: seq<seq<Vec>>, batch: nat, length: nat, topK: nat,
                                      threshold: int, threshold': int, useFused: bool, useFused': bool)
    requires IsMatrix(x, batch, length) && IsRouter(router, mlp, topK)
    requires IsArgsortFunction(argsort) && IsArgsortFunction(argsort')
    requires IsRouting(mlp, fused, Flatten(x), Indices(router, Flatten(x)), topK)
    ensures ShapeMlp(kernel, swiglu, argsort, mlp, fused, router, x, batch, length, topK, threshold, useFused)
         == ShapeMlp(kernel, swiglu, argsort', mlp, fused, router, x, batch, length, topK, threshold', useFused')
  {
    hide ShapeMlp, TokenMlp, IsRouting, IsRouter, IsArgsortFunction;
    var one := ShapeMlp(kernel, swiglu, argsort, mlp, fused, router, x, batch, length, topK, threshold, useFused);
    var two := ShapeMlp(kernel, swiglu, argsort', mlp, fused, router, x, batch, length, topK, threshold', useFused');
    forall b | 0 <= b < batch ensures one[b] == two[b] {
      forall l | 0 <= l < length ensures one[b][l] == two[b][l] {
        ShapeMlpIsReference(kernel, swiglu, argsort, mlp, fused, router, x, batch, length, topK, threshold, useFused,
                            b, l);
        ShapeMlpIsReference(kernel, swiglu, argsort', mlp, fused, router, x, batch, length, topK, threshold',
                            useFused', b, l);
      }
    }
  }
}
