/**
 The coordinate support of the gradient example (examples/elasticwave.py,
 lines 23-33): for every axis d, the local wavenumbers k[d] of the output
 (spectral) domain, wrapped to signed discrete Fourier transform frequencies,
 and the local positions x[d] of the input (real) domain, each reshaped so
 that it varies along axis d only.
 */
module Coordinates {
  import opened Grid

  datatype Option<T> = None | Some(value: T)

  /** A numpy array: its elements in row-major order and its (resolved) shape. */
  datatype NdArray = NdArray(values: seq<int>, shape: seq<nat>)

  // ---------------------------------------------------------------------------
  // The wrap rule on one index

  /**
   Signed wavenumber of the unsigned frequency index i on an axis of logical
   length n: indices from n // 2 upwards are moved down by n.
   */
  function Wrap(i: int, n: nat): int {
    if i >= n / 2 then i - n else i
  }

  /** Unsigned frequency index of a signed wavenumber (Python's `k % n` on the wrapped band). */
  function Unwrap(k: int, n: nat): int {
    if k < 0 then k + n else k
  }

  /**
   Reference ordering of numpy.fft.fftfreq, scaled by n: indices up to
   (n - 1) // 2 are non-negative, the rest are moved down by n.
   */
  function FftFreq(i: int, n: nat): int {
    if i <= (n - 1) / 2 then i else i - n
  }

  /** Low indices are kept, high indices are moved down by exactly n. */
  lemma WrapCases(i: int, n: nat)
    ensures i < n / 2 ==> Wrap(i, n) == i
    ensures i >= n / 2 ==> Wrap(i, n) == i - n
  {
  }

  /**
   Every index of the axis lands in the band [n // 2 - n, n // 2), which is
   [-n/2, n/2) when n is even.
   */
  lemma WrapInBand(i: int, n: nat)
    requires 0 <= i < n
    ensures n / 2 - n <= Wrap(i, n) < n / 2
    ensures n % 2 == 0 ==> -(n / 2) <= Wrap(i, n) < n / 2
  {
  }

  /** The Nyquist index n // 2 goes to the negative side, n // 2 - n; it is never kept positive. */
  lemma WrapNyquist(n: nat)
    requires n > 0
    ensures Wrap(n / 2, n) == n / 2 - n && Wrap(n / 2, n) < 0
  {
  }

  /** Wrap and Unwrap are inverse bijections between [0, n) and the band [n // 2 - n, n // 2). */
  lemma WrapUnwrap(i: int, k: int, n: nat)
    ensures 0 <= i < n ==> n / 2 - n <= Wrap(i, n) < n / 2 && Unwrap(Wrap(i, n), n) == i
    ensures n / 2 - n <= k < n / 2 ==> 0 <= Unwrap(k, n) < n && Wrap(Unwrap(k, n), n) == k
  {
  }

  /** For even n the wrap rule agrees with numpy's fftfreq ordering on every index of the axis. */
  lemma WrapMatchesFftFreqEven(i: int, n: nat)
    requires n % 2 == 0 && 0 <= i < n
    ensures Wrap(i, n) == FftFreq(i, n)
  {
  }

  /**
   For odd n the two disagree at index n // 2: the wrap rule gives
   -(n // 2) - 1, which lies outside [-n/2, n/2), where fftfreq keeps n // 2.
   */
  lemma WrapOddNyquistDiffers(n: nat)
    requires n % 2 == 1
    ensures Wrap(n / 2, n) == -(n / 2) - 1 && FftFreq(n / 2, n) == n / 2
    ensures 2 * Wrap(n / 2, n) + n < 0
  {
  }

  // ---------------------------------------------------------------------------
  // Local wavenumber and position vectors

  /** The consecutive integers start, ..., stop - 1: `numpy.arange(len)[start:stop]`. */
  function Arange(start: nat, stop: nat): seq<int>
    requires start <= stop
  {
    seq(stop - start, j requires 0 <= j < stop - start => start + j)
  }

  /** The wrap rule applied to every element. */
  function WrapAll(s: seq<int>, n: nat): seq<int> {
    seq(|s|, j requires 0 <= j < |s| => Wrap(s[j], n))
  }

  /** The wavenumbers of the frequency indices selected by a slice. */
  function Wavenumbers(s: Slice, n: nat): seq<int>
    requires s.start <= s.stop
  {
    WrapAll(Arange(s.start, s.stop), n)
  }

  /**
   The local wavenumbers of a slice are the wavenumbers of the whole output
   axis `arange(no)`, wrapped, restricted to the slice.
   */
  lemma WavenumbersRestrict(s: Slice, no: nat, n: nat)
    requires s.start <= s.stop <= no
    ensures Wavenumbers(s, n) == Wavenumbers(Slice(0, no), n)[s.start..s.stop]
  {
  }

  /** Wavenumbers of adjacent slices join to the wavenumbers of their union. */
  lemma WavenumbersAppend(a: nat, b: nat, c: nat, n: nat)
    requires a <= b <= c
    ensures Wavenumbers(Slice(a, b), n) + Wavenumbers(Slice(b, c), n) == Wavenumbers(Slice(a, c), n)
  {
  }

  /** The slices, in order, tile [lo, hi): each one starts where the previous one stopped. */
  predicate Tiles(slices: seq<Slice>, lo: nat, hi: nat)
    decreases |slices|
  {
    if slices == [] then lo == hi
    else slices[0].start == lo && slices[0].start <= slices[0].stop && Tiles(slices[1..], slices[0].stop, hi)
  }

  /** Concatenation of the local wavenumber vectors of the slices, in order. */
  function ConcatWavenumbers(slices: seq<Slice>, n: nat): seq<int>
    requires forall r :: 0 <= r < |slices| ==> slices[r].start <= slices[r].stop
  {
    if slices == [] then [] else Wavenumbers(slices[0], n) + ConcatWavenumbers(slices[1..], n)
  }

  /** The local vectors of slices that tile [lo, hi) concatenate to the wrapped range [lo, hi). */
  lemma {:induction false} TiledWavenumbers(slices: seq<Slice>, lo: nat, hi: nat, n: nat)
    requires Tiles(slices, lo, hi)
    ensures lo <= hi
    ensures forall r :: 0 <= r < |slices| ==> slices[r].start <= slices[r].stop
    ensures ConcatWavenumbers(slices, n) == Wavenumbers(Slice(lo, hi), n)
  {
    if slices != [] {
      var s := slices[0];
      TiledWavenumbers(slices[1..], s.stop, hi, n);
      assert forall r :: 1 <= r < |slices| ==> slices[r] == slices[1..][r - 1];
      WavenumbersAppend(lo, s.stop, hi, n);
    }
  }

  /**
   Over the whole axis the wavenumbers are n distinct values that fill the band
   [n // 2 - n, n // 2): no duplicates and no omissions.
   */
  lemma FullAxisWavenumbers(n: nat)
    ensures |Wavenumbers(Slice(0, n), n)| == n
    ensures forall i, j :: 0 <= i < j < n ==> Wavenumbers(Slice(0, n), n)[i] != Wavenumbers(Slice(0, n), n)[j]
    ensures forall j :: 0 <= j < n ==> n / 2 - n <= Wavenumbers(Slice(0, n), n)[j] < n / 2
    ensures forall k :: n / 2 - n <= k < n / 2 ==> k in Wavenumbers(Slice(0, n), n)
  {
    var w := Wavenumbers(Slice(0, n), n);
    forall k | n / 2 - n <= k < n / 2
      ensures k in w
    {
      WrapUnwrap(0, k, n);
      var j := Unwrap(k, n);
      assert w[j] == k;
    }
  }

  /**
   The wavenumber vectors of slices that tile the axis [0, n), concatenated,
   hold every value of the band [n // 2 - n, n // 2) exactly once.
   */
  lemma TiledAxisWavenumbers(slices: seq<Slice>, n: nat)
    requires Tiles(slices, 0, n)
    ensures forall r :: 0 <= r < |slices| ==> slices[r].start <= slices[r].stop
    ensures |ConcatWavenumbers(slices, n)| == n
    ensures forall i, j :: 0 <= i < j < n ==> ConcatWavenumbers(slices, n)[i] != ConcatWavenumbers(slices, n)[j]
    ensures forall k :: n / 2 - n <= k < n / 2 <==> k in ConcatWavenumbers(slices, n)
  {
    TiledWavenumbers(slices, 0, n, n);
    FullAxisWavenumbers(n);
    var w := Wavenumbers(Slice(0, n), n);
    forall k | k in w
      ensures n / 2 - n <= k < n / 2
    {
      var j :| 0 <= j < n && w[j] == k;
    }
  }

  /** `numpy.arange(len)[s]`: a fresh array holding s.start, ..., s.stop - 1. */
  method ArangeSlice(len: nat, s: Slice) returns (a: array<int>)
    requires s.start <= s.stop <= len
    ensures fresh(a) && a[..] == Arange(s.start, s.stop)
  {
    a := new int[s.stop - s.start];
    for j := 0 to a.Length
      invariant forall i :: 0 <= i < j ==> a[i] == s.start + i
    {
      a[j] := s.start + j;
    }
  }

  /** The masked update `k[k >= n // 2] -= n` of line 27, in place. */
  method WrapInPlace(a: array<int>, n: nat)
    modifies a
    ensures a[..] == WrapAll(old(a[..]), n)
  {
    for j := 0 to a.Length
      invariant forall i :: 0 <= i < j ==> a[i] == Wrap(old(a[i]), n)
      invariant forall i :: j <= i < a.Length ==> a[i] == old(a[i])
    {
      if a[j] >= n / 2 {
        a[j] := a[j] - n;
      }
    }
  }

  /**
   The local wavenumbers of one axis (lines 26-27): element j is the wrapped
   frequency index s.start + j.
   */
  method WavenumberAxis(no: nat, n: nat, s: Slice) returns (k: seq<int>)
    requires s.start <= s.stop <= no
    ensures k == Wavenumbers(s, n)
    ensures |k| == s.stop - s.start
    ensures forall j :: 0 <= j < |k| ==> k[j] == Wrap(s.start + j, n)
    ensures no <= n ==> forall j :: 0 <= j < |k| ==> n / 2 - n <= k[j] < n / 2
  {
    var a := ArangeSlice(no, s);
    WrapInPlace(a, n);
    k := a[..];
  }

  /**
   The local positions of one axis (line 31): element j is s.start + j, with
   no wrap-around, so every position lies in [0, ni).
   */
  method PositionAxis(ni: nat, s: Slice) returns (x: seq<int>)
    requires s.start <= s.stop <= ni
    ensures x == Arange(s.start, s.stop)
    ensures |x| == s.stop - s.start
    ensures forall j :: 0 <= j < |x| ==> x[j] == s.start + j && 0 <= x[j] < ni
  {
    var a := ArangeSlice(ni, s);
    x := a[..];
  }

  // ---------------------------------------------------------------------------
  // Broadcast shapes

  /** The list `[-1 if i == d else 1 for i in range(ndim)]` of lines 29 and 33. */
  function BroadcastShape(ndim: nat, d: nat): seq<int> {
    seq(ndim, i requires 0 <= i < ndim => if i == d then -1 else 1)
  }

  /** The shape numpy gives a vector of length len reshaped to BroadcastShape(ndim, d). */
  function AxisShape(ndim: nat, d: nat, len: nat): seq<nat> {
    seq(ndim, i requires 0 <= i < ndim => if i == d then len else 1)
  }

  /** Number of entries -1 (dimensions numpy is asked to infer). */
  function CountUnknown(s: seq<int>): nat {
    if s == [] then 0 else (if s[0] == -1 then 1 else 0) + CountUnknown(s[1..])
  }

  /** Product of the entries other than -1. */
  function KnownProduct(s: seq<int>): int {
    if s == [] then 1 else (if s[0] == -1 then 1 else s[0]) * KnownProduct(s[1..])
  }

  /** The shape with every -1 replaced by m. */
  function Resolve(s: seq<int>, m: nat): seq<nat>
    requires forall i :: 0 <= i < |s| ==> s[i] >= -1
  {
    seq(|s|, i requires 0 <= i < |s| => if s[i] == -1 then m else s[i] as nat)
  }

  /**
   numpy's `reshape` of a vector: at most one entry may be -1, and it is
   inferred from the number of elements; a shape that does not fit is an error.
   */
  function Reshape(values: seq<int>, newshape: seq<int>): Option<NdArray> {
    if exists i :: 0 <= i < |newshape| && newshape[i] < -1 then None
    else if CountUnknown(newshape) > 1 then None
    else if CountUnknown(newshape) == 1 then
      var known := KnownProduct(newshape);
      if known > 0 && |values| % known == 0 then Some(NdArray(values, Resolve(newshape, |values| / known)))
      else None
    else if KnownProduct(newshape) == |values| then Some(NdArray(values, Resolve(newshape, 0)))
    else None
  }

  /** A shape of ones asks for nothing to be inferred and holds one element. */
  lemma {:induction false} AllOnes(s: seq<int>)
    requires forall i :: 0 <= i < |s| ==> s[i] == 1
    ensures CountUnknown(s) == 0 && KnownProduct(s) == 1
  {
    if s != [] {
      AllOnes(s[1..]);
    }
  }

  /** A shape of ones with a single -1 asks for exactly one inferred dimension. */
  lemma {:induction false} OneUnknown(s: seq<int>, d: nat)
    requires d < |s| && s[d] == -1
    requires forall i :: 0 <= i < |s| && i != d ==> s[i] == 1
    ensures CountUnknown(s) == 1 && KnownProduct(s) == 1
  {
    if d == 0 {
      AllOnes(s[1..]);
    } else {
      OneUnknown(s[1..], d - 1);
    }
  }

  /**
   The broadcast shape for axis d has ndim entries, with -1 at d and 1
   elsewhere, so exactly one dimension is inferred.
   */
  lemma BroadcastShapeMarksAxis(ndim: nat, d: nat)
    requires d < ndim
    ensures |BroadcastShape(ndim, d)| == ndim
    ensures forall i :: 0 <= i < ndim ==> (BroadcastShape(ndim, d)[i] == -1 <==> i == d)
    ensures forall i :: 0 <= i < ndim && i != d ==> BroadcastShape(ndim, d)[i] == 1
    ensures CountUnknown(BroadcastShape(ndim, d)) == 1 && KnownProduct(BroadcastShape(ndim, d)) == 1
  {
    OneUnknown(BroadcastShape(ndim, d), d);
  }

  /** Reshaping any vector to the broadcast shape of axis d succeeds and puts its length on axis d. */
  lemma ReshapeToBroadcastShape(values: seq<int>, ndim: nat, d: nat)
    requires d < ndim
    ensures Reshape(values, BroadcastShape(ndim, d)) == Some(NdArray(values, AxisShape(ndim, d, |values|)))
  {
    BroadcastShapeMarksAxis(ndim, d);
    assert Resolve(BroadcastShape(ndim, d), |values| / 1) == AxisShape(ndim, d, |values|);
  }

  /** In a shape of ones the only multi-index is all zeros, at position 0. */
  lemma {:induction false} FlattenAllOnes(idx: seq<int>, shape: seq<nat>)
    requires InBounds(idx, shape)
    requires forall i :: 0 <= i < |shape| ==> shape[i] == 1
    ensures Flatten(idx, shape) == 0 && Size(shape) == 1
  {
    if shape != [] {
      assert InBounds(idx[1..], shape[1..]);
      FlattenAllOnes(idx[1..], shape[1..]);
    }
  }

  /** In a shape that is 1 on every axis but d, the element at idx is element idx[d] of the data. */
  lemma {:induction false} FlattenOneAxis(idx: seq<int>, shape: seq<nat>, d: nat)
    requires InBounds(idx, shape) && d < |shape|
    requires forall i :: 0 <= i < |shape| && i != d ==> shape[i] == 1
    ensures Flatten(idx, shape) == idx[d] && Size(shape) == shape[d]
  {
    assert InBounds(idx[1..], shape[1..]);
    if d == 0 {
      FlattenAllOnes(idx[1..], shape[1..]);
    } else {
      FlattenOneAxis(idx[1..], shape[1..], d - 1);
    }
  }

  /**
   A vector reshaped to the broadcast shape of axis d varies along axis d
   only: it holds exactly its len elements, and the element at any multi-index
   idx is element idx[d] of the vector.
   */
  lemma VariesAlongAxisOnly(ndim: nat, d: nat, len: nat, idx: seq<int>)
    requires d < ndim && InBounds(idx, AxisShape(ndim, d, len))
    ensures Size(AxisShape(ndim, d, len)) == len
    ensures Flatten(idx, AxisShape(ndim, d, len)) == idx[d]
  {
    FlattenOneAxis(idx, AxisShape(ndim, d, len), d);
  }

  // ---------------------------------------------------------------------------
  // The coordinate loop

  /**
   The loop of lines 23-33: for every axis d, k[d] holds the wrapped
   wavenumbers of the local output slice and x[d] the positions of the local
   input slice, each reshaped to the broadcast shape of axis d.
   */
  method CoordinateSupport(p: Partition) returns (k: seq<NdArray>, x: seq<NdArray>)
    requires p.Valid()
    ensures |k| == p.ndim && |x| == p.ndim
    ensures forall d :: 0 <= d < p.ndim ==>
      k[d] == NdArray(Wavenumbers(p.localOSlice[d], p.n[d]), AxisShape(p.ndim, d, Extent(p.localOSlice[d])))
    ensures forall d :: 0 <= d < p.ndim ==>
      x[d] == NdArray(Arange(p.localISlice[d].start, p.localISlice[d].stop), AxisShape(p.ndim, d, Extent(p.localISlice[d])))
  {
    var ks := new NdArray[p.ndim];
    var xs := new NdArray[p.ndim];
    for d := 0 to p.ndim
      invariant forall e :: 0 <= e < d ==>
        ks[e] == NdArray(Wavenumbers(p.localOSlice[e], p.n[e]), AxisShape(p.ndim, e, Extent(p.localOSlice[e])))
      invariant forall e :: 0 <= e < d ==>
        xs[e] == NdArray(Arange(p.localISlice[e].start, p.localISlice[e].stop), AxisShape(p.ndim, e, Extent(p.localISlice[e])))
    {
      var kd := WavenumberAxis(p.no[d], p.n[d], p.localOSlice[d]);
      ReshapeToBroadcastShape(kd, p.ndim, d);
      ks[d] := Reshape(kd, BroadcastShape(p.ndim, d)).value;

      var xd := PositionAxis(p.ni[d], p.localISlice[d]);
      ReshapeToBroadcastShape(xd, p.ndim, d);
      xs[d] := Reshape(xd, BroadcastShape(p.ndim, d)).value;
    }
    k, x := ks[..], xs[..];
  }
}
