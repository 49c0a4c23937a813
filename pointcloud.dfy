/** The point cloud: a device and a bundle of named per-row arrays, with the
    constructors, the centre query, the four in-place geometric edits and
    voxel down-sampling. */
module Geometry {
  import opened LinAlg
  import opened Tensors
  import opened Transforms
  import Voxel

  /** What `R.Matmul(normals.T())` demands of the normals: an N×3 array
      on the cloud's device. */
  function CheckDirections(normals: Tensor, device: Device): (r: Result<()>)
    ensures r.Success? <==> IsRowsOf3(normals.shape) && normals.device == device
    ensures !IsRowsOf3(normals.shape) ==> r == Failure(ShapeMismatch)
    ensures IsRowsOf3(normals.shape) && normals.device != device ==> r == Failure(DeviceMismatch)
  {
    if !IsRowsOf3(normals.shape) then Failure(ShapeMismatch)
    else if normals.device != device then Failure(DeviceMismatch)
    else Success(())
  }

  class PointCloud {
    var device: Device
    var attrs: AttrMap

    /** "points", where present, is N×3 and on the cloud's device. The other
        attributes are not constrained: the map constructor does not check
        their lengths, shapes or devices. */
    ghost predicate Valid()
      reads this
    {
      PointsWellFormed(attrs, device)
    }

    /** `PointCloud(device)`: a cloud bound to the device, with no attribute
        at all, not even "points". */
    constructor (device: Device)
      ensures Valid() && this.device == device && attrs == map[]
    {
      this.device := device;
      attrs := map[];
    }

    /** `PointCloud(points)`: the device is the points' device; points that
        are not N×3 are refused. */
    static method FromPoints(points: Tensor) returns (r: Result<PointCloud>)
      ensures r.Failure? <==> !IsRowsOf3(points.shape)
      ensures r.Failure? ==> r.error == ShapeMismatch
      ensures r.Success? ==>
        && fresh(r.value) && r.value.Valid()
        && r.value.device == points.device
        && r.value.attrs == map["points" := points]
    {
      if !IsRowsOf3(points.shape) {
        return Failure(ShapeMismatch);
      }
      var pc := new PointCloud(points.device);
      pc.attrs := map["points" := points];
      r := Success(pc);
    }

    /** `PointCloud(map)`: fails without "points" or when "points" is not
        N×3; otherwise stores every entry as given, with no check of the
        other entries' lengths or devices, on the device of "points". */
    static method FromMap(m: AttrMap) returns (r: Result<PointCloud>)
      ensures "points" !in m ==> r == Failure(MissingAttribute)
      ensures "points" in m ==> (r.Failure? <==> !IsRowsOf3(m["points"].shape))
      ensures "points" in m && r.Failure? ==> r.error == ShapeMismatch
      ensures r.Success? ==>
        && fresh(r.value) && r.value.Valid()
        && r.value.device == m["points"].device
        && r.value.attrs == m
    {
      if "points" !in m {
        return Failure(MissingAttribute);
      }
      if !IsRowsOf3(m["points"].shape) {
        return Failure(ShapeMismatch);
      }
      var pc := new PointCloud(m["points"].device);
      pc.attrs := m;
      r := Success(pc);
    }

    /** `GetCenter`: the mean of the points. Over zero rows the floating-point
        mean is NaN, reported here as `NotANumber`. */
    function GetCenter(): (r: Result<Vec3>)
      reads this
      requires Valid()
      ensures "points" !in attrs ==> r == Failure(MissingAttribute)
      ensures "points" in attrs && |attrs["points"].rows| == 0 ==> r == Failure(NotANumber)
      ensures "points" in attrs && |attrs["points"].rows| > 0 ==>
        r == Success(Centroid(Rows3(attrs["points"])))
      ensures r.Success? ==>
        "points" in attrs && |attrs["points"].rows| > 0 && r.value == Centroid(Rows3(attrs["points"]))
    {
      if "points" !in attrs then Failure(MissingAttribute)
      else if |attrs["points"].rows| == 0 then Failure(NotANumber)
      else Success(Centroid(Rows3(attrs["points"])))
    }

    /** The normals step shared by `Transform` and `Rotate`: if "normals" is
        present it becomes R·n row by row, provided the matrix product
        accepts it; "points" has been rewritten already and stays so. */
    method RotateNormals(R: Mat3) returns (r: Result<()>)
      requires Valid()
      modifies this
      ensures Valid() && device == old(device)
      ensures "normals" !in old(attrs) ==> r.Success? && attrs == old(attrs)
      ensures "normals" in old(attrs) ==>
        var n := old(attrs)["normals"];
        if CheckDirections(n, device).Failure? then
          r == CheckDirections(n, device) && attrs == old(attrs)
        else
          r.Success? && attrs == old(attrs)["normals" := FromRows3(RotateVectors(Rows3(n), R), n.device)]
    {
      r := Success(());
      if "normals" in attrs {
        var normals := attrs["normals"];
        r := CheckDirections(normals, device);
        if r.Success? {
          attrs := attrs["normals" := FromRows3(RotateVectors(Rows3(normals), R), normals.device)];
        }
      }
    }

    /** `Transform(M)`: M must be 4×4 on the cloud's device, checked before
        anything changes. Points become R·p + t with R the upper-left 3×3
        block and t the translation column; normals, when present, become
        R·n. No other attribute changes and the row counts stay. A normals
        array the matrix product refuses fails the call after the points
        have been rewritten. On success the cloud itself is returned. */
    method Transform(M: Tensor) returns (r: Result<PointCloud>)
      requires Valid()
      modifies this
      ensures Valid() && device == old(device)
      ensures r.Success? ==> r.value == this
      ensures CheckArgument(M, [4, 4], device).Failure? ==>
        r == Failure(CheckArgument(M, [4, 4], device).error) && attrs == old(attrs)
      ensures CheckArgument(M, [4, 4], device).Success? && "points" !in old(attrs) ==>
        r == Failure(MissingAttribute) && attrs == old(attrs)
      ensures CheckArgument(M, [4, 4], device).Success? && "points" in old(attrs) ==>
        var R, t := RotationBlock(M), TranslationBlock(M);
        var moved := old(attrs)["points" := FromRows3(TransformPoints(Rows3(old(attrs)["points"]), R, t), device)];
        && "points" in attrs && |attrs["points"].rows| == |old(attrs)["points"].rows|
        && ("normals" !in moved ==> r.Success? && attrs == moved)
        && ("normals" in moved ==>
              var n := moved["normals"];
              if CheckDirections(n, device).Failure? then
                r == Failure(CheckDirections(n, device).error) && attrs == moved
              else
                r.Success? && attrs == moved["normals" := FromRows3(RotateVectors(Rows3(n), R), n.device)])
    {
      var check := CheckArgument(M, [4, 4], device);
      if check.Failure? {
        return Failure(check.error);
      }
      if "points" !in attrs {
        return Failure(MissingAttribute);
      }
      var R, t := RotationBlock(M), TranslationBlock(M);
      var points := attrs["points"];
      attrs := attrs["points" := FromRows3(TransformPoints(Rows3(points), R, t), points.device)];
      var normals := RotateNormals(R);
      if normals.Failure? {
        return Failure(normals.error);
      }
      r := Success(this);
    }

    /** `Translate(v, relative)`: v must have shape {3} and be on the cloud's
        device, checked before anything changes. The points move by v, or by
        v minus their centroid when `relative` is false; nothing else
        changes. */
    method Translate(v: Tensor, relative: bool) returns (r: Result<PointCloud>)
      requires Valid()
      modifies this
      ensures Valid() && device == old(device)
      ensures r.Success? ==> r.value == this
      ensures CheckArgument(v, [3], device).Failure? ==>
        r == Failure(CheckArgument(v, [3], device).error) && attrs == old(attrs)
      ensures CheckArgument(v, [3], device).Success? && "points" !in old(attrs) ==>
        r == Failure(MissingAttribute) && attrs == old(attrs)
      ensures CheckArgument(v, [3], device).Success? && "points" in old(attrs) ==>
        var ps := Rows3(old(attrs)["points"]);
        && r.Success?
        && "points" in attrs && |attrs["points"].rows| == |old(attrs)["points"].rows|
        && attrs == old(attrs)["points" := FromRows3(TranslatePoints(ps, TranslationOffset(ps, AsVec3(v), relative)), device)]
    {
      var check := CheckArgument(v, [3], device);
      if check.Failure? {
        return Failure(check.error);
      }
      if "points" !in attrs {
        return Failure(MissingAttribute);
      }
      var ps := Rows3(attrs["points"]);
      var offset := AsVec3(v);
      if !relative && |ps| > 0 {
        var center := GetCenter();
        offset := Sub(offset, center.value);
      }
      attrs := attrs["points" := FromRows3(TranslatePoints(ps, offset), device)];
      r := Success(this);
    }

    /** `Scale(s, c)`: c must have shape {3} and be on the cloud's device,
        checked before anything changes. Points become (p − c)·s + c;
        normals and every other attribute are left as they are. */
    method Scale(s: real, center: Tensor) returns (r: Result<PointCloud>)
      requires Valid()
      modifies this
      ensures Valid() && device == old(device)
      ensures r.Success? ==> r.value == this
      ensures CheckArgument(center, [3], device).Failure? ==>
        r == Failure(CheckArgument(center, [3], device).error) && attrs == old(attrs)
      ensures CheckArgument(center, [3], device).Success? && "points" !in old(attrs) ==>
        r == Failure(MissingAttribute) && attrs == old(attrs)
      ensures CheckArgument(center, [3], device).Success? && "points" in old(attrs) ==>
        && r.Success?
        && "points" in attrs && |attrs["points"].rows| == |old(attrs)["points"].rows|
        && attrs == old(attrs)["points" := FromRows3(ScalePoints(Rows3(old(attrs)["points"]), s, AsVec3(center)), device)]
    {
      var check := CheckArgument(center, [3], device);
      if check.Failure? {
        return Failure(check.error);
      }
      if "points" !in attrs {
        return Failure(MissingAttribute);
      }
      var ps := Rows3(attrs["points"]);
      attrs := attrs["points" := FromRows3(ScalePoints(ps, s, AsVec3(center)), device)];
      r := Success(this);
    }

    /** `Rotate(R, c)`: R must be 3×3 and c of shape {3}, both on the cloud's
        device, all checked before anything changes. Points become
        R·(p − c) + c; normals, when present, become R·n without centring.
        No other attribute changes. A normals array the matrix product
        refuses fails the call after the points have been rewritten. */
    method Rotate(R: Tensor, center: Tensor) returns (r: Result<PointCloud>)
      requires Valid()
      modifies this
      ensures Valid() && device == old(device)
      ensures r.Success? ==> r.value == this
      ensures CheckArgument(R, [3, 3], device).Failure? ==>
        r == Failure(CheckArgument(R, [3, 3], device).error) && attrs == old(attrs)
      ensures CheckArgument(R, [3, 3], device).Success? && CheckArgument(center, [3], device).Failure? ==>
        r == Failure(CheckArgument(center, [3], device).error) && attrs == old(attrs)
      ensures CheckArgument(R, [3, 3], device).Success? && CheckArgument(center, [3], device).Success?
              && "points" !in old(attrs) ==>
        r == Failure(MissingAttribute) && attrs == old(attrs)
      ensures CheckArgument(R, [3, 3], device).Success? && CheckArgument(center, [3], device).Success?
              && "points" in old(attrs) ==>
        var rot := AsMat3(R);
        var moved := old(attrs)["points" := FromRows3(RotatePoints(Rows3(old(attrs)["points"]), rot, AsVec3(center)), device)];
        && "points" in attrs && |attrs["points"].rows| == |old(attrs)["points"].rows|
        && ("normals" !in moved ==> r.Success? && attrs == moved)
        && ("normals" in moved ==>
              var n := moved["normals"];
              if CheckDirections(n, device).Failure? then
                r == Failure(CheckDirections(n, device).error) && attrs == moved
              else
                r.Success? && attrs == moved["normals" := FromRows3(RotateVectors(Rows3(n), rot), n.device)])
    {
      var check := CheckArgument(R, [3, 3], device);
      if check.Failure? {
        return Failure(check.error);
      }
      check := CheckArgument(center, [3], device);
      if check.Failure? {
        return Failure(check.error);
      }
      if "points" !in attrs {
        return Failure(MissingAttribute);
      }
      var rot := AsMat3(R);
      var points := attrs["points"];
      attrs := attrs["points" := FromRows3(RotatePoints(Rows3(points), rot, AsVec3(center)), points.device)];
      var normals := RotateNormals(rot);
      if normals.Failure? {
        return Failure(normals.error);
      }
      r := Success(this);
    }

    /** `VoxelDownSample(voxel_size)`: a new cloud, on the same device,
        holding one row per distinct voxel cell of the points; the cloud
        itself is not modified (the method has no modifies clause). */
    method VoxelDownSample(voxelSize: real) returns (r: Result<PointCloud>)
      requires Valid() && voxelSize > 0.0
      ensures "points" !in attrs ==> r == Failure(MissingAttribute)
      ensures "points" in attrs ==> (r.Failure? <==> !Voxel.RowsAgree(attrs))
      ensures "points" in attrs && r.Failure? ==> r.error == ShapeMismatch
      ensures r.Success? ==>
        && fresh(r.value) && r.value.Valid()
        && r.value.device == device
        && Voxel.RowsAgree(attrs)
        && exists sel ::
             && Voxel.IsSelection(Voxel.CellsOf(Rows3(attrs["points"]), voxelSize), sel)
             && r.value.attrs == Voxel.DownSampled(attrs, sel, voxelSize)
    {
      var down, sel := Voxel.DownSample(attrs, voxelSize);
      if down.Failure? {
        return Failure(down.error);
      }
      r := FromMap(down.value);
      assert Voxel.IsSelection(Voxel.CellsOf(Rows3(attrs["points"]), voxelSize), sel);
    }
  }
}
