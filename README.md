# Open3D tensor point cloud, modelled in Dafny

This project models the core of Open3D's tensor point cloud,
`open3d::t::geometry::PointCloud`. A point cloud is a device tag plus a
bundle of named arrays, one row per point. The primary attribute is
`"points"`, an N×3 array. `"normals"`, colours and any other attributes are
extra entries. The model covers:

- the three constructors: empty on a device, from a points array, and from a
  name→array map;
- `GetCenter`;
- the four in-place edits `Transform`, `Translate`, `Scale` and `Rotate`;
- `VoxelDownSample`.

Coordinates are exact `real`s. This idealises the floating-point tensor
code: every per-row formula holds exactly, and nothing is claimed about
rounding.

Modules, leaf first:

- `LinAlg` (`linalg.dfy`): 3-vectors, 3×3 matrices, the matrix product and
  the algebra facts the proofs need.
- `Tensors` (`tensors.dfy`): what the model needs of the tensor engine. An
  array has a shape, a device and its rows along the first axis; the
  subset type `Tensor` keeps these consistent. The module also has the
  error kinds, a `Result` type, the attribute map, and the argument checks
  `AssertShape` / `AssertDevice`.
- `Transforms` (`transforms.dfy`): the per-row formulas of the four edits,
  and what composing them gives.
- `Voxel` (`voxel.dfy`): truncating quantisation, the hash map's `Activate`,
  the survivor selection, the gathered output bundle and the down-sampling
  loop.
- `Geometry` (`pointcloud.dfy`): `class PointCloud` has the fields `device`
  and `attrs: map<string, Tensor>`. The four edits are methods that reassign
  `attrs` (`modifies this`). `VoxelDownSample` has no `modifies` clause: it
  does not change its receiver and returns a fresh cloud.

Points worth knowing:

- **Quantisation truncates toward zero.** Line 140 casts `points /
  voxel_size` to `Int64`, and a cast truncates. `Voxel.Trunc` models this
  explicitly, so −0.5 and 0.5 both fall in cell 0 (`Voxel.TruncationExample`).
  A floor would put −0.5 in cell −1; the cast puts it in cell 0.
- **The hash map is modelled by its contract.** `Voxel.IsClaimMask` says the
  mask flags exactly one row per distinct key. `Voxel.Activate` meets it
  with a sequential loop where the first row to reach a key wins. Every
  property is proved for any selection satisfying `Voxel.IsSelection`, so
  none depends on which duplicate row won. Which row wins can change the
  ORDER of the output rows. It does not change the set of output points or
  their count.
- **Only the arguments are validated up front.** `Transform` and `Rotate`
  check their arguments before changing anything. The normals are not
  checked up front. The map constructor accepts a `"normals"` entry of any
  shape and device. If the matrix product at line 93 or 133 then refuses
  that entry, the call fails after `"points"` has already been rewritten at
  line 89 or 129. The methods' contracts state this partial state exactly,
  reading `HasPointNormals()` as "a `normals` entry is present" (see
  "## Left out").
- **Voxel down-sampling can fail.** The boolean mask has N entries. An
  attribute whose row count is not N cannot be indexed by it (lines 150 and
  157), so the call fails with `ShapeMismatch`. The map constructor never
  checks row counts, so such a bundle can exist.

## Model

| member | source | states |
|---|---|---|
| `Geometry.PointCloud.constructor` | cpp/open3d/t/geometry/PointCloud.cpp:45-50 | the empty cloud is bound to the given device and has no attribute, not even "points" |
| `Geometry.PointCloud.FromPoints` | cpp/open3d/t/geometry/PointCloud.cpp:52-56 | fails with ShapeMismatch exactly when the array is not N×3; otherwise the cloud holds just that array as "points" on the array's device |
| `Geometry.PointCloud.FromMap` | cpp/open3d/t/geometry/PointCloud.cpp:58-68 | fails when "points" is absent (MissingAttribute) or not N×3 (ShapeMismatch), and only then; otherwise every entry is stored unchanged, with no length or device cross-check, and the device is that of "points" |
| `Tensors.CheckArgument` | cpp/open3d/t/geometry/PointCloud.cpp:77-78 | an argument passes exactly when its shape and device are the demanded ones; a wrong shape reports ShapeMismatch before the device is looked at |
| `Tensors.RotationBlock` | cpp/open3d/t/geometry/PointCloud.cpp:80 | the 3×3 block holds entry (i, j) of the 4×4 argument for every i, j < 3 |
| `Tensors.TranslationBlock` | cpp/open3d/t/geometry/PointCloud.cpp:81 | the translation holds entry (i, 3) of the 4×4 argument for every i < 3 |
| `Transforms.Centroid` | cpp/open3d/t/geometry/PointCloud.cpp:74 | the mean of a non-empty row set, taken once per row, adds up to the rows' sum |
| `Geometry.PointCloud.GetCenter` | cpp/open3d/t/geometry/PointCloud.cpp:74 | fails without "points" (MissingAttribute), reports NotANumber over zero rows, and over one or more rows succeeds with the centroid of the point rows |
| `Geometry.CheckDirections` | cpp/open3d/t/geometry/PointCloud.cpp:91-93 | the normals product succeeds exactly for an N×3 normals array on the cloud's device; another shape reports ShapeMismatch, and an N×3 array on another device reports DeviceMismatch |
| `Geometry.PointCloud.RotateNormals` | cpp/open3d/t/geometry/PointCloud.cpp:91-94 | with no "normals" nothing changes; otherwise either the normals are refused and the bundle stays as it is, or "normals" alone becomes R·n row by row |
| `Geometry.PointCloud.Transform` | cpp/open3d/t/geometry/PointCloud.cpp:76-96 | a bad 4×4 argument or missing "points" leaves the bundle unchanged; otherwise points become R·p + t, normals (only if present) become R·n, no other entry changes, the row count is kept, and the cloud itself is returned |
| `Transforms.TransformPoints` | cpp/open3d/t/geometry/PointCloud.cpp:89 | one output row per input row, row i being R·p_i + t; `TransformRoundTrip` and the `…IsTransform` lemmas are its partners |
| `Transforms.RotateVectors` | cpp/open3d/t/geometry/PointCloud.cpp:93 | one output row per input normal, row i being R·n_i; `RotateVectorsRoundTrip` is its partner |
| `Transforms.TransformRoundTrip` | cpp/open3d/t/geometry/PointCloud.cpp:80-89 | transforming points by (R, t) and then by an inverse (Ri·R = I, ti = −Ri·t) restores every point |
| `Transforms.RotateVectorsRoundTrip` | cpp/open3d/t/geometry/PointCloud.cpp:91-94 | rotating normals by R and then by a left inverse of R restores every normal |
| `Geometry.PointCloud.Translate` | cpp/open3d/t/geometry/PointCloud.cpp:98-109 | a bad {3} argument or missing "points" leaves the bundle unchanged; otherwise only "points" changes: every point moves by v, or by v minus the centroid when `relative` is false |
| `Transforms.TranslationOffset` | cpp/open3d/t/geometry/PointCloud.cpp:103-106 | with `relative` (or over zero rows) the offset is v itself; otherwise the offset carries the current centroid exactly onto v |
| `Transforms.TranslatePoints` | cpp/open3d/t/geometry/PointCloud.cpp:107 | one output row per input row, each moved by the offset; `TranslateToCentroid` is its partner |
| `Transforms.TranslateToCentroid` | cpp/open3d/t/geometry/PointCloud.cpp:103-107 | with `relative` false, the translated points have centroid exactly v |
| `Transforms.TranslateIsTransform` | cpp/open3d/t/geometry/PointCloud.cpp:107 | translating by d moves points as `Transform` does with the identity block and translation d |
| `Geometry.PointCloud.Scale` | cpp/open3d/t/geometry/PointCloud.cpp:111-118 | a bad centre or missing "points" leaves the bundle unchanged; otherwise only "points" changes, to (p − c)·s + c, and normals are untouched |
| `Transforms.ScalePoints` | cpp/open3d/t/geometry/PointCloud.cpp:116 | one output row per input row, row i being (p_i − c)·s + c; `ScaleRoundTrip` is its partner |
| `Transforms.ScaleRoundTrip` | cpp/open3d/t/geometry/PointCloud.cpp:115-116 | for s ≠ 0, scaling by s about c and then by 1/s about c restores every point |
| `Transforms.ScaleIsTransform` | cpp/open3d/t/geometry/PointCloud.cpp:116 | scaling about c moves points as `Transform` does with the block s·I and translation (1 − s)·c |
| `Geometry.PointCloud.Rotate` | cpp/open3d/t/geometry/PointCloud.cpp:120-136 | R (3×3) and the centre ({3}) are checked in that order before any change; then points become R·(p − c) + c, normals (only if present) become R·n with no centring, and nothing else changes |
| `Transforms.RotatePoints` | cpp/open3d/t/geometry/PointCloud.cpp:129 | one output row per input row, row i being R·(p_i − c) + c; `RotateRoundTrip` is its partner |
| `Transforms.RotateIsTransform` | cpp/open3d/t/geometry/PointCloud.cpp:127-129 | rotating about c moves points as `Transform` does with block R and translation c − R·c |
| `Transforms.RotateRoundTrip` | cpp/open3d/t/geometry/PointCloud.cpp:127-129 | rotating about c by R and then about c by a left inverse of R restores every point |
| `Voxel.Trunc` | cpp/open3d/t/geometry/PointCloud.cpp:140 | the cast to an integer truncates toward zero: at most x and within 1 of it for x ≥ 0, at least x and within 1 of it for x < 0 |
| `Voxel.Quantize` | cpp/open3d/t/geometry/PointCloud.cpp:139-140 | every coordinate of the point lies in the slab of its key, [k·s, (k+1)·s) for a non-negative coordinate and ((k−1)·s, k·s] for a negative one, so the point lies in its key's cell |
| `Voxel.Activate` | cpp/open3d/t/geometry/PointCloud.cpp:142-147 | the mask has one flag per row, no two flagged rows share a key, and every key is flagged at some row |
| `Voxel.MarkedRows` | cpp/open3d/t/geometry/PointCloud.cpp:150 | the result is exactly the flagged rows: every listed row is flagged, every flagged row is listed, in increasing order; hence the keys at those rows are pairwise distinct and represent every key |
| `Voxel.Gather` | cpp/open3d/t/geometry/PointCloud.cpp:157 | `IndexGet` keeps the trailing shape and the device and has, as row o, the input's row at the o-th selected index |
| `Voxel.DownSampled` | cpp/open3d/t/geometry/PointCloud.cpp:149-162 | the down-sampled bundle has exactly the input's attribute names, N'×3 points on the input points' device, and one row per selected row in every attribute |
| `Voxel.DownSample` | cpp/open3d/t/geometry/PointCloud.cpp:138-162 | fails without "points" (MissingAttribute), and with ShapeMismatch exactly when some attribute's row count differs from N; otherwise returns the bundle built from a valid selection |
| `Voxel.SelectionCount` | cpp/open3d/t/geometry/PointCloud.cpp:147-150 | a selection covers exactly the distinct keys, so its size is the number of distinct cells, which is at most N |
| `Voxel.QuantizeAnchor` | cpp/open3d/t/geometry/PointCloud.cpp:139-152 | quantising a cell's anchor key·voxel_size gives back that cell |
| `Voxel.DownSampledPoints` | cpp/open3d/t/geometry/PointCloud.cpp:150-153 | the output points are N'×3 on the input device, with N' the number of distinct cells (≤ N); each row is the anchor key·voxel_size of its selected cell, no anchor appears twice, and the set of rows is exactly the anchors of the input's cells, whichever duplicate won |
| `Voxel.DownSampledAttributes` | cpp/open3d/t/geometry/PointCloud.cpp:155-160 | the output has exactly the input's attribute names, every output attribute has one row per selected row, and every non-points attribute is the input rows at the same selected indices, with its trailing shape and device |
| `Voxel.CellStable` | cpp/open3d/t/geometry/PointCloud.cpp:138-162 | down-sampling the output again with the same voxel size keeps the point count |
| `Voxel.ThreePointExample` | cpp/open3d/t/geometry/PointCloud.cpp:138-153 | (0,0,0), (0.1,0,0), (5,5,5) with voxel size 1 yield exactly the points (0,0,0) and (5,5,5) |
| `Voxel.TruncationExample` | cpp/open3d/t/geometry/PointCloud.cpp:139-140 | with voxel size 1, x = −0.5 and x = 0.5 share cell 0 and yield the single point (0,0,0) |
| `Geometry.PointCloud.VoxelDownSample` | cpp/open3d/t/geometry/PointCloud.cpp:138-163 | the receiver is not modified; the same failure cases as `Voxel.DownSample`; on success a fresh cloud on the same device whose bundle is the down-sampled bundle of some valid selection |

## Left out

- `GetMinBound` / `GetMaxBound` (lines 70-72): plain reductions of the points array, with no logic of their own beyond the tensor engine.
- `CreateFromDepthImage` (lines 166-193): it only packs parameters for an external elementwise kernel, and the unprojection is not in view.
- `FromLegacyPointCloud` / `ToLegacyPointCloud` (lines 195-233): conversions through Eigen converters that are not in view.
- Floating point: rounding in transpose and matrix products, overflow of the float-to-`Int64` cast, and the dtype casts at line 151. Coordinates are exact reals and cell keys are unbounded integers.
- Hash-map internals and concurrent slot claiming (lines 142-147): `Voxel.Activate` is sequential, and the slot addresses it would return are not modelled.
- Aliasing of tensor handles. `Translate` may write through to the caller's tensor (lines 103 and 105), and `Scale` edits the stored points through a copied handle (lines 115-116). The model passes arguments as values and replaces whole entries.
- Device placement is an opaque tag compared for equality. Element types are not modelled.
- Arrays with no axis (zero-dimensional scalars) cannot be expressed: every modelled array has at least one axis.
- Geometry.CheckDirections: the matrix product's own rules are not in view. The model refuses any normals array that is not N×3, including a one-dimensional array of three entries, which the product might accept as a single vector. It checks shape before device.
- Voxel.DownSample: that a boolean mask of N entries cannot index an array with a different row count is behaviour of the tensor engine, which is not in view.
- Non-positive voxel size: the code does not check it (lines 138-140), so `voxelSize > 0` is a precondition.
- The map constructor calls `.at("points")` (line 60) before its own check (line 61). Both ways of failing are modelled as one `MissingAttribute`.
- Geometry.PointCloud.GetCenter: over zero rows the floating-point mean is NaN. The model reports `NotANumber` instead of a value. For the same reason `Translate` with `relative` false and zero rows adds `v`: zero rows are touched either way.
- `HasPointNormals()` (lines 91 and 131) is defined in the header, which is not part of this model. It is read as "a `normals` entry is present". If it also demands that the normals have as many rows as the points, or at least one row, then the code skips a normals entry that the model rotates or refuses, and the partial state the contracts of `Transform` and `Rotate` state holds only under the presence reading.
- The header's accessors and setters (`GetPoints`, `SetPoints`, `HasPointNormals`) are not part of this model. `GetPoints` on a cloud without "points" is taken to fail the way `.at` does, as `MissingAttribute`.
