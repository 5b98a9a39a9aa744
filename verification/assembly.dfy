/**
 The global assembler `gather` of the gradient example
 (examples/elasticwave.py, lines 95-103): every process writes its local block
 into a zero array of the global shape, and the arrays of all processes are
 summed element by element. The sum reproduces every process's block because
 the blocks do not overlap.
 */
module Assembly {
  import opened Grid

  /** The global shape gather allocates: `ni` for mode "input", `no` for any other mode. */
  function GlobalShape(p: Partition, mode: string): seq<nat> {
    if mode == "input" then p.ni else p.no
  }

  /** The slice of this process gather writes: `local_i_slice` for mode "input", `local_o_slice` otherwise. */
  function LocalSlice(p: Partition, mode: string): seq<Slice> {
    if mode == "input" then p.localISlice else p.localOSlice
  }

  /** The zero array of the global shape with the local block written into its slice. */
  function Embed(data: seq<real>, shape: seq<nat>, slices: seq<Slice>): seq<real>
    requires Within(slices, shape) && |data| == Size(Extents(slices))
  {
    seq(Size(shape), p requires 0 <= p < Size(shape) =>
      if InBox(Unflatten(p, shape), slices) then data[ToLocal(p, slices, shape)] else 0.0)
  }

  /**
   Read by multi-index, the embedded array holds the local element at every
   multi-index inside the slice and zero at every other one.
   */
  lemma EmbedAt(data: seq<real>, shape: seq<nat>, slices: seq<Slice>, idx: seq<int>)
    requires Within(slices, shape) && |data| == Size(Extents(slices)) && InBounds(idx, shape)
    ensures |Embed(data, shape, slices)| == Size(shape)
    ensures InBox(idx, slices) ==>
      Embed(data, shape, slices)[Position(idx, shape)] == data[LocalPosition(idx, slices)]
    ensures !InBox(idx, slices) ==> Embed(data, shape, slices)[Position(idx, shape)] == 0.0
  {
    UnflattenFlatten(idx, shape);
  }

  /**
   Lines 96-101 of gather: allocate zeros of the global shape of the mode and
   write the local block into this process's slice, element by element of the
   block. The result is what this process hands to the reduction.
   */
  method Gather(partition: Partition, data: array<real>, mode: string := "input") returns (full: seq<real>)
    requires partition.Valid()
    requires data.Length == Size(Extents(LocalSlice(partition, mode)))
    ensures |full| == Size(GlobalShape(partition, mode))
    ensures full == Embed(data[..], GlobalShape(partition, mode), LocalSlice(partition, mode))
  {
    var shape, slices;
    if mode == "input" {
      shape, slices := partition.ni, partition.localISlice;
    } else {
      shape, slices := partition.no, partition.localOSlice;
    }
    var a := new real[Size(shape)](_ => 0.0);
    for q := 0 to Size(Extents(slices))
      invariant forall p :: 0 <= p < a.Length ==>
        a[p] == if InBox(Unflatten(p, shape), slices) && ToLocal(p, slices, shape) < q
                then data[ToLocal(p, slices, shape)] else 0.0
    {
      var g := ToGlobal(q, slices, shape);
      ToLocalToGlobal(q, slices, shape);
      forall p | 0 <= p < a.Length && InBox(Unflatten(p, shape), slices) && ToLocal(p, slices, shape) == q
        ensures p == g
      {
        ToGlobalToLocal(p, slices, shape);
      }
      a[g] := data[q];
    }
    full := a[..];
  }

  // ---------------------------------------------------------------------------
  // The reduction across processes

  /** Element p summed over the contributions of the ranks, in rank order. */
  function SumAt(parts: seq<seq<real>>, p: nat): real
    requires forall r :: 0 <= r < |parts| ==> p < |parts[r]|
  {
    if parts == [] then 0.0 else SumAt(parts[..|parts| - 1], p) + parts[|parts| - 1][p]
  }

  /** The element-wise sum of line 102 over the arrays of all ranks. */
  function Allreduce(parts: seq<seq<real>>, len: nat): seq<real>
    requires forall r :: 0 <= r < |parts| ==> |parts[r]| == len
  {
    seq(len, p requires 0 <= p < len => SumAt(parts, p))
  }

  /** A sum of zeros is zero. */
  lemma {:induction false} SumAtAllZero(parts: seq<seq<real>>, p: nat)
    requires forall r :: 0 <= r < |parts| ==> p < |parts[r]| && parts[r][p] == 0.0
    ensures SumAt(parts, p) == 0.0
  {
    if parts != [] {
      SumAtAllZero(parts[..|parts| - 1], p);
    }
  }

  /** When only one rank holds a non-zero element p, the sum at p is that rank's element. */
  lemma {:induction false} SumAtSingleOwner(parts: seq<seq<real>>, p: nat, owner: nat)
    requires forall r :: 0 <= r < |parts| ==> p < |parts[r]|
    requires owner < |parts|
    requires forall r :: 0 <= r < |parts| && r != owner ==> parts[r][p] == 0.0
    ensures SumAt(parts, p) == parts[owner][p]
  {
    var last := |parts| - 1;
    if owner == last {
      SumAtAllZero(parts[..last], p);
    } else {
      SumAtSingleOwner(parts[..last], p, owner);
    }
  }

  // ---------------------------------------------------------------------------
  // All ranks together

  /** Every rank's slice lies inside the global shape and its data fills its block. */
  predicate WellFormed(datas: seq<seq<real>>, shape: seq<nat>, boxes: seq<seq<Slice>>) {
    |datas| == |boxes| &&
    forall r :: 0 <= r < |boxes| ==> Within(boxes[r], shape) && |datas[r]| == Size(Extents(boxes[r]))
  }

  /** No element lies in the blocks of two different ranks. */
  ghost predicate PairwiseDisjoint(boxes: seq<seq<Slice>>) {
    forall r, s :: 0 <= r < |boxes| && 0 <= s < |boxes| && r != s ==>
      forall idx :: InBox(idx, boxes[r]) ==> !InBox(idx, boxes[s])
  }

  /** Every element of the global shape lies in the block of some rank. */
  ghost predicate Covers(boxes: seq<seq<Slice>>, shape: seq<nat>) {
    forall idx :: InBounds(idx, shape) ==> exists r :: 0 <= r < |boxes| && InBox(idx, boxes[r])
  }

  /** The arrays the ranks hand to the reduction: each one's block embedded in zeros. */
  function Contributions(datas: seq<seq<real>>, shape: seq<nat>, boxes: seq<seq<Slice>>): seq<seq<real>>
    requires WellFormed(datas, shape, boxes)
  {
    seq(|boxes|, r requires 0 <= r < |boxes| => Embed(datas[r], shape, boxes[r]))
  }

  /** What gather returns on every rank: the reduced sum of all contributions. */
  function GatherAll(datas: seq<seq<real>>, shape: seq<nat>, boxes: seq<seq<Slice>>): seq<real>
    requires WellFormed(datas, shape, boxes)
  {
    Allreduce(Contributions(datas, shape, boxes), Size(shape))
  }

  /**
   With pairwise disjoint blocks, the reduced array holds every rank's data at
   that rank's slice.
   */
  lemma GatherReassembles(datas: seq<seq<real>>, shape: seq<nat>, boxes: seq<seq<Slice>>, r: nat, idx: seq<int>)
    requires WellFormed(datas, shape, boxes) && PairwiseDisjoint(boxes)
    requires r < |boxes| && InBox(idx, boxes[r])
    ensures InBounds(idx, shape) && |GatherAll(datas, shape, boxes)| == Size(shape)
    ensures GatherAll(datas, shape, boxes)[Position(idx, shape)] == datas[r][LocalPosition(idx, boxes[r])]
  {
    var parts := Contributions(datas, shape, boxes);
    var p := Position(idx, shape);
    forall s | 0 <= s < |parts| && s != r
      ensures parts[s][p] == 0.0
    {
      EmbedAt(datas[s], shape, boxes[s], idx);
    }
    EmbedAt(datas[r], shape, boxes[r], idx);
    SumAtSingleOwner(parts, p, r);
  }

  /**
   With blocks that are pairwise disjoint and cover the global shape, every
   element of the reduced array is the data of the one rank that owns it.
   */
  lemma GatherCoversGrid(datas: seq<seq<real>>, shape: seq<nat>, boxes: seq<seq<Slice>>, idx: seq<int>)
    requires WellFormed(datas, shape, boxes) && PairwiseDisjoint(boxes) && Covers(boxes, shape)
    requires InBounds(idx, shape)
    ensures |GatherAll(datas, shape, boxes)| == Size(shape)
    ensures exists r :: (0 <= r < |boxes| && InBox(idx, boxes[r]) &&
                         GatherAll(datas, shape, boxes)[Position(idx, shape)] == datas[r][LocalPosition(idx, boxes[r])])
    ensures forall r, s :: 0 <= r < |boxes| && 0 <= s < |boxes| && InBox(idx, boxes[r]) && InBox(idx, boxes[s]) ==> r == s
  {
    var r :| 0 <= r < |boxes| && InBox(idx, boxes[r]);
    GatherReassembles(datas, shape, boxes, r, idx);
  }

  /** The slice of the whole grid along every axis. */
  function WholeGrid(shape: seq<nat>): seq<Slice> {
    seq(|shape|, d requires 0 <= d < |shape| => Slice(0, shape[d]))
  }

  /** A single rank that owns the whole grid gets its data back unchanged. */
  lemma GatherSingleRank(data: seq<real>, shape: seq<nat>)
    requires |data| == Size(shape)
    ensures Extents(WholeGrid(shape)) == shape
    ensures GatherAll([data], shape, [WholeGrid(shape)]) == data
  {
    var whole := WholeGrid(shape);
    assert Extents(whole) == shape;
    var parts := Contributions([data], shape, [whole]);
    forall p | 0 <= p < Size(shape)
      ensures parts[0][p] == data[p]
    {
      var u := Unflatten(p, shape);
      assert Local(u, whole) == u;
    }
    var g := GatherAll([data], shape, [whole]);
    forall p | 0 <= p < Size(shape)
      ensures g[p] == data[p]
    {
      assert SumAt(parts, p) == SumAt([], p) + parts[0][p];
    }
  }
}
