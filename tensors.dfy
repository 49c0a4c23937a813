/** The tensor engine as this model sees it: an array has a shape, a device
    and its rows along the first axis (each row flattened in row-major order),
    and a point cloud is a map from attribute name to such an array. */
module Tensors {
  import opened LinAlg

  /** The compute target an array lives on; only ever compared for equality. */
  datatype Device = Device(id: nat)

  /** The ways an operation of the point cloud can fail. */
  datatype Error =
    | MissingAttribute  // the "points" entry is looked up but absent
    | ShapeMismatch     // an array's shape violates the operation's demand
    | DeviceMismatch    // an array is on another device than the cloud
    | NotANumber        // a mean over zero rows (0/0 in floating point)

  datatype Result<T> = Success(value: T) | Failure(error: Error)

  /** Number of elements of an array of the given dimensions. */
  function Product(dims: seq<nat>): nat {
    if dims == [] then 1 else dims[0] * Product(dims[1..])
  }

  lemma ProductOfOne(n: nat)
    ensures Product([n]) == n
  {
    assert [n][1..] == [];
  }

  datatype TensorData = TensorData(shape: seq<nat>, device: Device, rows: seq<seq<real>>)
  {
    /** At least one axis, one row per index of the first axis, and every row
        holding as many elements as the remaining axes describe. */
    predicate WellShaped() {
      && |shape| >= 1
      && |rows| == shape[0]
      && forall i :: 0 <= i < |rows| ==> |rows[i]| == Product(shape[1..])
    }
  }

  /** An array as the tensor engine hands it out: always well shaped. */
  type Tensor = t: TensorData | t.WellShaped() witness TensorData([0], Device(0), [])

  /** A point cloud's attribute bundle: attribute name to per-row array. */
  type AttrMap = map<string, Tensor>

  /** The shape test `AssertShapeCompatible({nullopt, 3})`: any number of
      rows, exactly three columns. */
  predicate IsRowsOf3(shape: seq<nat>) {
    |shape| == 2 && shape[1] == 3
  }

  /** The bundle invariant the constructors establish: "points", where
      present, is an N×3 array on the cloud's device. */
  predicate PointsWellFormed(m: AttrMap, device: Device) {
    "points" in m ==> IsRowsOf3(m["points"].shape) && m["points"].device == device
  }

  /** `AssertShape(shape)` followed by `AssertDevice(device)`. */
  function CheckArgument(t: Tensor, shape: seq<nat>, device: Device): (r: Result<()>)
    ensures r.Success? <==> t.shape == shape && t.device == device
    ensures t.shape != shape ==> r == Failure(ShapeMismatch)
    ensures t.shape == shape && t.device != device ==> r == Failure(DeviceMismatch)
  {
    if t.shape != shape then Failure(ShapeMismatch)
    else if t.device != device then Failure(DeviceMismatch)
    else Success(())
  }

  /** The rows of an N×3 array as vectors. */
  function Rows3(t: Tensor): (ps: seq<Vec3>)
    requires IsRowsOf3(t.shape)
    ensures |ps| == |t.rows| && forall i :: 0 <= i < |ps| ==> ps[i] == t.rows[i]
  {
    assert t.shape[1..] == [3];
    ProductOfOne(3);
    seq(|t.rows|, i requires 0 <= i < |t.rows| => t.rows[i])
  }

  /** An N×3 array on the given device holding the vectors as rows. */
  function FromRows3(ps: seq<Vec3>, device: Device): (t: Tensor)
    ensures IsRowsOf3(t.shape) && t.device == device && Rows3(t) == ps
  {
    var t := TensorData([|ps|, 3], device, ps);
    assert t.shape[1..] == [3];
    ProductOfOne(3);
    t
  }

  /** The entries of an array of shape {3}. */
  function AsVec3(t: Tensor): Vec3
    requires t.shape == [3]
  {
    assert t.shape[1..] == [];
    [t.rows[0][0], t.rows[1][0], t.rows[2][0]]
  }

  /** The entries of an array of shape {3, 3}. */
  function AsMat3(t: Tensor): Mat3
    requires t.shape == [3, 3]
  {
    assert t.shape[1..] == [3];
    ProductOfOne(3);
    [t.rows[0], t.rows[1], t.rows[2]]
  }

  /** `M.Slice(0, 0, 3).Slice(1, 0, 3)`: the upper-left 3×3 block of a 4×4 array. */
  function RotationBlock(M: Tensor): (R: Mat3)
    requires M.shape == [4, 4]
    ensures forall i, j :: 0 <= i < 3 && 0 <= j < 3 ==> |M.rows[i]| == 4 && R[i][j] == M.rows[i][j]
  {
    assert M.shape[1..] == [4];
    ProductOfOne(4);
    [M.rows[0][..3], M.rows[1][..3], M.rows[2][..3]]
  }

  /** `M.Slice(0, 0, 3).Slice(1, 3, 4)`: the first three entries of the last column. */
  function TranslationBlock(M: Tensor): (t: Vec3)
    requires M.shape == [4, 4]
    ensures forall i :: 0 <= i < 3 ==> |M.rows[i]| == 4 && t[i] == M.rows[i][3]
  {
    assert M.shape[1..] == [4];
    ProductOfOne(4);
    [M.rows[0][3], M.rows[1][3], M.rows[2][3]]
  }
}
