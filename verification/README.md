# Coordinate support and global assembly of the distributed spectral gradient

`examples/elasticwave.py` computes the gradient of a scalar field on a grid
that is distributed over MPI processes. Each process owns one slice of the
grid in the real (input) domain and one in the spectral (output) domain. The
script does its own index bookkeeping in two places, and this project models
and proves both:

- **Coordinate support** (lines 23-33). For every axis `d`, the script builds
  `k[d]`, the wavenumbers of the local output slice. These are the integers
  `start .. stop-1`, and every value `>= n[d] // 2` is moved down by `n[d]`.
  It also builds `x[d]`, the positions of the local input slice, with no
  wrap-around. Both are reshaped to the broadcast shape
  `[-1 if i == d else 1 ...]`, so that each varies along axis `d` only.
- **`gather`** (lines 95-103). It allocates zeros of the global shape (`ni`
  for mode `"input"`, `no` for any other mode). It writes the local block into
  this process's slice. Then it sums the arrays of all processes element by
  element.

The model has three modules:

- `Grid` (`grid.dfy`) holds the partition a process receives: the number of
  axes, the shapes `n`, `ni`, `no`, and the local slices. It also holds the
  row-major (C order) layout of numpy arrays. The layout is flattening of a
  multi-index and its inverse, proved to be a bijection. It also maps the local
  block onto its place in the global array, in both directions.
- `Coordinates` (`coordinates.dfy`) holds the wrap rule and its inverse,
  numpy's `fftfreq` ordering as an independent reference, and the local
  wavenumber and position vectors. It includes the masked in-place update of
  line 27 as an array method. It also models numpy's `reshape` with one
  inferred (`-1`) dimension and the coordinate loop itself.
- `Assembly` (`assembly.dfy`) holds the embedding of the local block into
  zeros, the `gather` method that builds it in place, and the cross-process
  sum as a fold over the ranks' arrays. Its lemmas prove that disjoint blocks
  are reassembled exactly, that blocks which also cover the grid determine
  every element, and that a single rank gets its data back unchanged.

Multi-dimensional arrays are a flat row-major sequence plus a shape. Field
values are `real`, because the reassembly argument uses only the fact that
adding zero changes nothing.

The usual statement of the discrete Fourier transform convention puts the
wavenumbers in `[-n/2, n/2)`. The code does something different for odd `n`:
it moves every index `>= n // 2` down by `n`, so the values lie in
`[n//2 - n, n//2)`. For example, for `n = 3` the index 1 becomes -2, which
lies outside `[-1.5, 1.5)`, and numpy's `fftfreq` keeps it at 1. For `n = 1` the zero frequency becomes -1. The
model follows the code (`Wrap`). `WrapMatchesFftFreqEven` proves that the two
agree for even `n`, which includes the 8 x 8 grid the script uses.
`WrapOddNyquistDiffers` proves the difference for odd `n`.

## Model

| member | source | states |
|---|---|---|
| `Coordinates.WrapCases` | examples/elasticwave.py:27 | an index below `n // 2` is left unchanged; an index at or above `n // 2` becomes `i - n` |
| `Coordinates.WrapInBand` | examples/elasticwave.py:27 | every index of the axis `0 <= i < n` wraps into `[n//2 - n, n//2)`, which is `[-n/2, n/2)` for even `n` |
| `Coordinates.WrapNyquist` | examples/elasticwave.py:27 | the Nyquist index `n // 2` maps to `n//2 - n`, which is negative; it is never kept positive |
| `Coordinates.WrapUnwrap` | examples/elasticwave.py:27 | the wrap rule is a bijection from `[0, n)` onto `[n//2 - n, n//2)`, with `Unwrap` as its inverse in both directions |
| `Coordinates.WrapMatchesFftFreqEven` | examples/elasticwave.py:27 | for even `n` the wrap rule equals numpy's `fftfreq` ordering (scaled by `n`) on every index of the axis |
| `Coordinates.WrapOddNyquistDiffers` | examples/elasticwave.py:27 | for odd `n` the wrap rule sends `n // 2` to `-(n//2) - 1`, below `-n/2`, where `fftfreq` keeps `n // 2` |
| `Coordinates.ArangeSlice` | examples/elasticwave.py:26 | `arange(len)[start:stop]` is a fresh array holding `start, ..., stop - 1` |
| `Coordinates.WrapInPlace` | examples/elasticwave.py:27 | the masked in-place `k[k >= n // 2] -= n` leaves every element wrapped and changes nothing else |
| `Coordinates.WavenumberAxis` | examples/elasticwave.py:26-27 | the local `k[d]` has length `stop - start`; element `j` is `Wrap(start + j)`; when the axis is no longer than `n` every value lies in the band |
| `Coordinates.PositionAxis` | examples/elasticwave.py:31 | the local `x[d]` has length `stop - start`; element `j` is `start + j`, with no wrap-around, and lies in `[0, ni)` |
| `Coordinates.WavenumbersRestrict` | examples/elasticwave.py:26-27 | the local `k[d]` of a slice is the wrapped global `arange(no)` restricted to that slice |
| `Coordinates.WavenumbersAppend` | examples/elasticwave.py:26-27 | the wavenumbers of two adjacent slices concatenate to those of their union |
| `Coordinates.TiledWavenumbers` | examples/elasticwave.py:26-27 | the local vectors of slices that tile `[lo, hi)` in order concatenate to the wrapped global range restricted to `[lo, hi)` |
| `Coordinates.FullAxisWavenumbers` | examples/elasticwave.py:26-27 | over the whole axis the wavenumbers are `n` pairwise distinct values that fill `[n//2 - n, n//2)`: no duplicates, no omissions |
| `Coordinates.TiledAxisWavenumbers` | examples/elasticwave.py:26-27 | for slices that tile `[0, n)`, the concatenated local vectors have length `n`, are pairwise distinct, and contain exactly the values of the band |
| `Coordinates.BroadcastShapeMarksAxis` | examples/elasticwave.py:29 | the broadcast shape has `ndim` entries, `-1` exactly at position `d` and `1` at every other position, so numpy infers exactly one dimension |
| `Coordinates.ReshapeToBroadcastShape` | examples/elasticwave.py:29 | reshaping any vector to the broadcast shape of axis `d` succeeds and gives the shape with the vector's length at `d` and `1` elsewhere |
| `Coordinates.VariesAlongAxisOnly` | examples/elasticwave.py:29 | the reshaped vector has as many elements as before, and its element at any multi-index `idx` is element `idx[d]` of the vector |
| `Coordinates.CoordinateSupport` | examples/elasticwave.py:23-33 | the loop returns, for every axis `d`, `k[d]` as the wavenumbers of the local output slice and `x[d]` as the positions of the local input slice, each with the broadcast shape of axis `d` |
| `Grid.Unflatten` | examples/elasticwave.py:97 | the multi-index of a row-major position is in bounds and flattens back to that position |
| `Grid.UnflattenFlatten` | examples/elasticwave.py:97 | flattening an in-bounds multi-index gives a position inside the array, and unflattening returns the same multi-index |
| `Grid.ToLocalToGlobal` | examples/elasticwave.py:98 | each element of the local block goes to a position inside this process's slice of the global array, and that position maps back to the same local element |
| `Grid.ToGlobalToLocal` | examples/elasticwave.py:98 | each position of the global array inside the slice receives exactly one element of the local block |
| `Assembly.EmbedAt` | examples/elasticwave.py:96-101 | before the reduction, the array has the global shape of the mode; it equals the local data at every multi-index inside the slice and zero everywhere else |
| `Assembly.Gather` | examples/elasticwave.py:95-101 | allocating zeros of `ni` (mode `"input"`) or `no` (any other mode) and writing the block into the slice yields exactly that embedding |
| `Assembly.SumAtSingleOwner` | examples/elasticwave.py:102 | when only one rank's array is non-zero at a position, the element-wise sum there is that rank's element |
| `Assembly.GatherReassembles` | examples/elasticwave.py:97-102 | if the ranks' slices are pairwise disjoint, the summed array holds each rank's data at that rank's slice |
| `Assembly.GatherCoversGrid` | examples/elasticwave.py:97-102 | if the slices are also a cover, every element of the summed array belongs to exactly one rank and holds that rank's datum |
| `Assembly.GatherSingleRank` | examples/elasticwave.py:97-102 | a single rank that owns the whole grid gets its data back unchanged |

## Left out

- MPI is not modelled: the communicator, `ProcMesh` and the process mesh (lines 9-12), the rank test in `cprint` (lines 91-93), and the collective `Allreduce` at line 102. The reduction is the function `Allreduce`, which sums the ranks' arrays element by element in rank order. Message passing and the blocking collective are outside the model.
- `pfft.Partition`, `split_size_2d`, `LocalBuffer`, `view_input`/`view_output` and the plans (lines 10-19, 36-62, 73-74, 82) belong to a foreign library. The model takes the shapes and local slices as inputs, in `Grid.Partition`. `Partition.Valid` requires each local slice to lie inside its global shape, which the library guarantees. Python's clamping of out-of-range slices is therefore not modelled.
- The spectral multiply by `1j * k[d]` and the transforms (lines 74, 80-84) are complex floating-point FFT numerics and are not modelled.
- The initial field `dx**2 + dx*dy + dy**2` (lines 65-67) is floating-point evaluation and is not modelled.
- Printing, `.round(2)` (lines 69, 89) and the entry point (line 105) are not modelled.
- Field values are `real`, not IEEE floats or complex numbers. Rounding in the element-wise sum is not modelled; the argument needs only `x + 0 == x`.
- Coordinates.CoordinateSupport: `reshape` returns a numpy view that shares storage with the vector. The model returns a value, so aliasing between `k[d]` and the array built at line 26 is not captured.
- Coordinates.TiledAxisWavenumbers: the cover of an axis is stated for slices that tile it in order, which is the block layout the library produces. Covers by disjoint slices in any order are not stated.
- Coordinates.WrapInPlace: the fixed-width integer type of the numpy array is not modelled. Integers are unbounded, and the indices involved are far from any overflow.
- Assembly.Gather: `data` is the local block as a flat row-major sequence whose length is the number of elements of the slice. numpy's `full[slice] = data` (lines 98 and 101) also broadcasts a smaller array, such as a scalar or a `(1, m)` row, over the whole block; the model does not admit such a `data`. numpy raises `ValueError` for a `data` with the right number of elements but the wrong shape (4 x 2 into a 2 x 4 block); the model carries no shape for `data` and copies it in row-major order. Both calls in the script (lines 69 and 89) pass an array with exactly the block's shape.
