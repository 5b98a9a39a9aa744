/**
 Layout of the distributed grid: per-axis slices, the partition a process
 receives from the transform library, and the row-major (C order) flattening
 of a multi-dimensional array into one sequence of elements.
 */
module Grid {

  /** A Python `slice(start, stop)` along one axis: the half-open range [start, stop). */
  datatype Slice = Slice(start: nat, stop: nat)

  /**
   The part of a `pfft.Partition` that the coordinate builder and the
   assembler read: the number of axes, the logical shape `n`, the global
   input (real) shape `ni`, the global output (spectral) shape `no`, and this
   process's slice of each.
   */
  datatype Partition = Partition(
    ndim: nat,
    n: seq<nat>,
    ni: seq<nat>,
    no: seq<nat>,
    localISlice: seq<Slice>,
    localOSlice: seq<Slice>)
  {
    /** Every shape has one entry per axis and every local slice lies inside its global shape. */
    predicate Valid() {
      && |n| == ndim && |ni| == ndim && |no| == ndim
      && Within(localISlice, ni) && Within(localOSlice, no)
    }
  }

  /** Number of elements along one axis of a slice. */
  function Extent(s: Slice): nat {
    if s.start <= s.stop then s.stop - s.start else 0
  }

  /** One slice per axis, each inside the axis. */
  predicate Within(slices: seq<Slice>, shape: seq<nat>) {
    |slices| == |shape| &&
    forall d :: 0 <= d < |shape| ==> slices[d].start <= slices[d].stop <= shape[d]
  }

  /** Shape of the block that a slice per axis selects. */
  function Extents(slices: seq<Slice>): seq<nat> {
    seq(|slices|, d requires 0 <= d < |slices| => Extent(slices[d]))
  }

  /** Number of elements of an array of the given shape; the empty shape holds one scalar. */
  function Size(shape: seq<nat>): nat {
    if shape == [] then 1 else shape[0] * Size(shape[1..])
  }

  /** A multi-index that addresses an element of an array of the given shape. */
  predicate InBounds(idx: seq<int>, shape: seq<nat>) {
    |idx| == |shape| && forall d :: 0 <= d < |shape| ==> 0 <= idx[d] < shape[d]
  }

  /** A multi-index that lies inside the block selected by one slice per axis. */
  predicate InBox(idx: seq<int>, slices: seq<Slice>) {
    |idx| == |slices| &&
    forall d :: 0 <= d < |slices| ==> slices[d].start <= idx[d] < slices[d].stop
  }

  /** Row-major position of a multi-index: the last axis varies fastest. */
  function Flatten(idx: seq<int>, shape: seq<nat>): int
    requires |idx| == |shape|
  {
    if shape == [] then 0 else idx[0] * Size(shape[1..]) + Flatten(idx[1..], shape[1..])
  }

  /** Multi-index of a row-major position; `Flatten` undoes it. */
  function Unflatten(p: nat, shape: seq<nat>): (idx: seq<int>)
    requires p < Size(shape)
    ensures InBounds(idx, shape) && Flatten(idx, shape) == p
  {
    if shape == [] then []
    else
      var t := Size(shape[1..]);
      QuotientBound(p, shape[0], t);
      var q, r := p / t, p % t;
      var rest := Unflatten(r, shape[1..]);
      ConsIndex(q, rest, shape);
      [q] + rest
  }

  /** Position inside the local block of a global multi-index. */
  function Local(idx: seq<int>, slices: seq<Slice>): seq<int>
    requires |idx| == |slices|
  {
    seq(|idx|, d requires 0 <= d < |idx| => idx[d] - slices[d].start)
  }

  /** Global multi-index of a position inside the local block. */
  function Global(local: seq<int>, slices: seq<Slice>): seq<int>
    requires |local| == |slices|
  {
    seq(|local|, d requires 0 <= d < |local| => local[d] + slices[d].start)
  }

  /** Row-major global position of the element at row-major position q of the local block. */
  function ToGlobal(q: nat, slices: seq<Slice>, shape: seq<nat>): (p: nat)
    requires Within(slices, shape) && q < Size(Extents(slices))
    ensures p < Size(shape)
  {
    var u := Unflatten(q, Extents(slices));
    GlobalInBox(u, slices, shape);
    Position(Global(u, slices), shape)
  }

  /** Row-major position of an in-bounds multi-index, which lies inside the array. */
  function Position(idx: seq<int>, shape: seq<nat>): (p: nat)
    requires InBounds(idx, shape)
    ensures p < Size(shape)
  {
    FlattenInRange(idx, shape);
    Flatten(idx, shape)
  }

  /** Row-major position inside the local block of a global multi-index that lies in the block. */
  function LocalPosition(idx: seq<int>, slices: seq<Slice>): (q: nat)
    requires InBox(idx, slices)
    ensures q < Size(Extents(slices))
  {
    LocalInBounds(idx, slices);
    Position(Local(idx, slices), Extents(slices))
  }

  /** Row-major local position of the element at global row-major position p, which lies in the block. */
  function ToLocal(p: nat, slices: seq<Slice>, shape: seq<nat>): (q: nat)
    requires p < Size(shape) && InBox(Unflatten(p, shape), slices)
    ensures q < Size(Extents(slices))
  {
    LocalPosition(Unflatten(p, shape), slices)
  }

  // ---------------------------------------------------------------------------
  // Arithmetic of mixed-radix numbers

  /** Prepending a leading digit to a multi-index of the trailing axes. */
  lemma ConsIndex(q: int, rest: seq<int>, shape: seq<nat>)
    requires shape != [] && 0 <= q < shape[0] && InBounds(rest, shape[1..])
    ensures InBounds([q] + rest, shape)
    ensures Flatten([q] + rest, shape) == q * Size(shape[1..]) + Flatten(rest, shape[1..])
  {
    assert ([q] + rest)[1..] == rest;
  }

  lemma ProductMonotone(x: int, y: int, t: int)
    requires x <= y && 0 <= t
    ensures x * t <= y * t
  {
    assert y * t - x * t == (y - x) * t;
  }

  /** A digit below its radix followed by a lower part below its weight stays below the next weight. */
  lemma MixedRadixBound(a: int, b: int, m: int, t: int)
    requires 0 <= a < m && 0 <= b < t
    ensures 0 <= a * t + b < m * t
  {
    ProductMonotone(0, a, t);
    ProductMonotone(a + 1, m, t);
  }

  /** The leading digit of a position below m * t is below m. */
  lemma QuotientBound(p: nat, m: nat, t: nat)
    requires p < m * t
    ensures t > 0 && p / t < m && 0 <= p % t < t && p == (p / t) * t + p % t
  {
    if t > 0 && p / t >= m {
      ProductMonotone(m, p / t, t);
    }
  }

  /** Division by the weight recovers the digit and the lower part. */
  lemma DivModMixed(a: int, b: int, t: int)
    requires 0 <= a && 0 <= b < t
    ensures (a * t + b) / t == a && (a * t + b) % t == b
  {
    var p := a * t + b;
    var q, r := p / t, p % t;
    assert p == q * t + r;
    if q > a {
      ProductMonotone(a + 1, q, t);
    } else if q < a {
      ProductMonotone(q + 1, a, t);
    }
  }

  // ---------------------------------------------------------------------------
  // Flattening is a bijection between multi-indices and positions

  /** Every in-bounds multi-index has a position inside the array. */
  lemma {:induction false} FlattenInRange(idx: seq<int>, shape: seq<nat>)
    requires InBounds(idx, shape)
    ensures 0 <= Flatten(idx, shape) < Size(shape)
  {
    if shape != [] {
      assert InBounds(idx[1..], shape[1..]);
      FlattenInRange(idx[1..], shape[1..]);
      MixedRadixBound(idx[0], Flatten(idx[1..], shape[1..]), shape[0], Size(shape[1..]));
    }
  }

  /** Unflatten undoes Flatten: distinct multi-indices have distinct positions. */
  lemma {:induction false} UnflattenFlatten(idx: seq<int>, shape: seq<nat>)
    requires InBounds(idx, shape)
    ensures 0 <= Flatten(idx, shape) < Size(shape)
    ensures Unflatten(Flatten(idx, shape), shape) == idx
  {
    FlattenInRange(idx, shape);
    if shape != [] {
      var t := Size(shape[1..]);
      var rest := Flatten(idx[1..], shape[1..]);
      assert InBounds(idx[1..], shape[1..]);
      UnflattenFlatten(idx[1..], shape[1..]);
      DivModMixed(idx[0], rest, t);
      assert [idx[0]] + idx[1..] == idx;
    }
  }

  // ---------------------------------------------------------------------------
  // The local block and its place in the global array

  /** A global multi-index in the block, shifted by the slice starts, addresses the local block. */
  lemma LocalInBounds(idx: seq<int>, slices: seq<Slice>)
    requires InBox(idx, slices)
    ensures InBounds(Local(idx, slices), Extents(slices))
    ensures Global(Local(idx, slices), slices) == idx
  {
  }

  /** A local multi-index, shifted back, lies in the block and inside the global shape. */
  lemma GlobalInBox(local: seq<int>, slices: seq<Slice>, shape: seq<nat>)
    requires Within(slices, shape) && InBounds(local, Extents(slices))
    ensures InBox(Global(local, slices), slices) && InBounds(Global(local, slices), shape)
    ensures Local(Global(local, slices), slices) == local
  {
  }

  /** Going from the local block to the global array and back returns to the same element. */
  lemma ToLocalToGlobal(q: nat, slices: seq<Slice>, shape: seq<nat>)
    requires Within(slices, shape) && q < Size(Extents(slices))
    ensures InBox(Unflatten(ToGlobal(q, slices, shape), shape), slices)
    ensures ToLocal(ToGlobal(q, slices, shape), slices, shape) == q
  {
    var u := Unflatten(q, Extents(slices));
    var g := Global(u, slices);
    GlobalInBox(u, slices, shape);
    UnflattenFlatten(g, shape);
  }

  /** Every element of the block in the global array is the image of one local element. */
  lemma ToGlobalToLocal(p: nat, slices: seq<Slice>, shape: seq<nat>)
    requires Within(slices, shape) && p < Size(shape) && InBox(Unflatten(p, shape), slices)
    ensures ToGlobal(ToLocal(p, slices, shape), slices, shape) == p
  {
    var u := Unflatten(p, shape);
    var l := Local(u, slices);
    LocalInBounds(u, slices);
    UnflattenFlatten(l, Extents(slices));
  }
}
