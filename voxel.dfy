/** Voxel down-sampling: quantise every point to an integer cell, keep one
    representative row per distinct cell, and build a new bundle whose points
    are the cells' anchors and whose other attributes are gathered at the
    representatives' rows. */
module Voxel {
  import opened LinAlg
  import opened Tensors

  /** The integer lattice coordinates of a voxel cell: the hash-map key. */
  datatype Cell = Cell(x: int, y: int, z: int)

  /** A cast of a real to a 64-bit integer: truncation toward zero, so that
      both 0.5 and -0.5 become 0. */
  function Trunc(x: real): (n: int)
    ensures 0.0 <= x ==> n as real <= x < n as real + 1.0
    ensures x < 0.0 ==> n as real - 1.0 < x <= n as real
  {
    if x >= 0.0 then x.Floor else -((-x).Floor)
  }

  /** The coordinate lies in the k-th slab of width voxelSize, counted from
      zero toward the coordinate's sign: [k·s, (k+1)·s) for a non-negative
      coordinate, ((k−1)·s, k·s] for a negative one. */
  predicate InSlab(coord: real, k: int, voxelSize: real) {
    if coord >= 0.0 then k as real * voxelSize <= coord < (k + 1) as real * voxelSize
    else (k - 1) as real * voxelSize < coord <= k as real * voxelSize
  }

  lemma TruncSlab(coord: real, voxelSize: real)
    requires voxelSize > 0.0
    ensures InSlab(coord, Trunc(coord / voxelSize), voxelSize)
  {
    var x := coord / voxelSize;
    var n := Trunc(x);
    assert coord == x * voxelSize;
    assert coord >= 0.0 <==> x >= 0.0;
    if x >= 0.0 {
      assert n as real * voxelSize <= x * voxelSize;
      assert x * voxelSize < (n as real + 1.0) * voxelSize;
    } else {
      assert (n as real - 1.0) * voxelSize < x * voxelSize;
      assert x * voxelSize <= n as real * voxelSize;
    }
  }

  /** `(p / voxel_size).To(Int64)` for one row: every coordinate falls in its
      key's slab, so the point lies in the key's voxel cell. */
  function Quantize(p: Vec3, voxelSize: real): (c: Cell)
    requires voxelSize > 0.0
    ensures InSlab(p[0], c.x, voxelSize) && InSlab(p[1], c.y, voxelSize) && InSlab(p[2], c.z, voxelSize)
  {
    TruncSlab(p[0], voxelSize);
    TruncSlab(p[1], voxelSize);
    TruncSlab(p[2], voxelSize);
    Cell(Trunc(p[0] / voxelSize), Trunc(p[1] / voxelSize), Trunc(p[2] / voxelSize))
  }

  /** The cell key of every row. */
  function CellsOf(ps: seq<Vec3>, voxelSize: real): seq<Cell>
    requires voxelSize > 0.0
  {
    seq(|ps|, i requires 0 <= i < |ps| => Quantize(ps[i], voxelSize))
  }

  /** The cell's lattice coordinates multiplied back by the voxel size. */
  function Anchor(c: Cell, voxelSize: real): Vec3 {
    [c.x as real * voxelSize, c.y as real * voxelSize, c.z as real * voxelSize]
  }

  function Anchors(cells: seq<Cell>, voxelSize: real): seq<Vec3> {
    seq(|cells|, o requires 0 <= o < |cells| => Anchor(cells[o], voxelSize))
  }

  /** The set of distinct keys among the rows. */
  function DistinctCells(keys: seq<Cell>): set<Cell> {
    set i | 0 <= i < |keys| :: keys[i]
  }

  /** What the hash map's `Activate` promises of its mask: one flag per row,
      at most one flagged row per key, and every key flagged at some row. */
  ghost predicate IsClaimMask(keys: seq<Cell>, mask: seq<bool>) {
    && |mask| == |keys|
    && (forall i, j :: 0 <= i < j < |keys| && mask[i] && mask[j] ==> keys[i] != keys[j])
    && (forall i :: 0 <= i < |keys| ==> Claimed(keys, mask, keys[i]))
  }

  /** Some row with key c is flagged. */
  ghost predicate Claimed(keys: seq<Cell>, mask: seq<bool>, c: Cell) {
    exists j :: 0 <= j < |keys| && j < |mask| && mask[j] && keys[j] == c
  }

  /** A sequential stand-in for the concurrent hash insert: every row tries to
      claim its key and the first row to reach a key wins it. Nothing proved
      downstream depends on which row wins; only `IsClaimMask` is used. */
  method Activate(keys: seq<Cell>) returns (mask: seq<bool>)
    ensures IsClaimMask(keys, mask)
  {
    var table: map<Cell, nat> := map[];  // key -> row that claimed it
    mask := [];
    for i := 0 to |keys|
      invariant |mask| == i
      invariant forall c :: c in table ==> table[c] < i && mask[table[c]] && keys[table[c]] == c
      invariant forall j :: 0 <= j < i ==> keys[j] in table
      invariant forall j, k :: 0 <= j < k < i && mask[j] && mask[k] ==> keys[j] != keys[k]
    {
      if keys[i] in table {
        mask := mask + [false];
      } else {
        mask := mask + [true];
        table := table[keys[i] := i];
      }
    }
    forall i | 0 <= i < |keys|
      ensures Claimed(keys, mask, keys[i])
    {
      var j := table[keys[i]];
      assert 0 <= j < |keys| && mask[j] && keys[j] == keys[i];
    }
  }

  /** The rows a claim mask selects, read in row order (`IndexGet({masks})`):
      increasing row indices, pairwise distinct keys, and every key of the
      input represented. */
  ghost predicate IsSelection(keys: seq<Cell>, sel: seq<nat>) {
    && (forall o :: 0 <= o < |sel| ==> sel[o] < |keys|)
    && (forall o1, o2 :: 0 <= o1 < o2 < |sel| ==> sel[o1] < sel[o2] && keys[sel[o1]] != keys[sel[o2]])
    && (forall i :: 0 <= i < |keys| ==> Represented(keys, sel, keys[i]))
  }

  /** Some selected row has key c. */
  ghost predicate Represented(keys: seq<Cell>, sel: seq<nat>, c: Cell) {
    exists o :: 0 <= o < |sel| && sel[o] < |keys| && keys[sel[o]] == c
  }

  /** The keys at the selected rows. */
  function SelectedCells(keys: seq<Cell>, sel: seq<nat>): seq<Cell>
    requires forall o :: 0 <= o < |sel| ==> sel[o] < |keys|
  {
    seq(|sel|, o requires 0 <= o < |sel| => keys[sel[o]])
  }

  /** `IndexGet` with a row-index list: the array's rows at those indices. */
  function Gather(t: Tensor, sel: seq<nat>): (g: Tensor)
    requires forall o :: 0 <= o < |sel| ==> sel[o] < |t.rows|
    ensures g.shape == [|sel|] + t.shape[1..] && g.device == t.device
    ensures |g.rows| == |sel| && forall o :: 0 <= o < |sel| ==> g.rows[o] == t.rows[sel[o]]
  {
    var g := TensorData([|sel|] + t.shape[1..], t.device, seq(|sel|, o requires 0 <= o < |sel| => t.rows[sel[o]]));
    assert g.shape[1..] == t.shape[1..];
    g
  }

  /** "points" is present and every attribute has as many rows as "points". */
  predicate RowsAgree(attrs: AttrMap) {
    "points" in attrs && forall a :: a in attrs ==> |attrs[a].rows| == |attrs["points"].rows|
  }

  /** The bundle `VoxelDownSample` builds from a selection: the anchors of the
      selected cells as "points", and every other attribute gathered at the
      selected rows. */
  function DownSampled(attrs: AttrMap, sel: seq<nat>, voxelSize: real): (out: AttrMap)
    requires voxelSize > 0.0
    requires RowsAgree(attrs) && IsRowsOf3(attrs["points"].shape)
    requires forall o :: 0 <= o < |sel| ==> sel[o] < |attrs["points"].rows|
    ensures out.Keys == attrs.Keys
    ensures IsRowsOf3(out["points"].shape) && out["points"].device == attrs["points"].device
    ensures forall a :: a in out ==> |out[a].rows| == |sel|
  {
    var keys := CellsOf(Rows3(attrs["points"]), voxelSize);
    map a | a in attrs ::
      if a == "points" then FromRows3(Anchors(SelectedCells(keys, sel), voxelSize), attrs[a].device)
      else Gather(attrs[a], sel)
  }

  /** `IndexGet({masks})` turns the claim mask into the marked row indices,
      in row order. */
  method MarkedRows(keys: seq<Cell>, mask: seq<bool>) returns (sel: seq<nat>)
    requires IsClaimMask(keys, mask)
    ensures forall o :: 0 <= o < |sel| ==> sel[o] < |mask| && mask[sel[o]]
    ensures forall j :: 0 <= j < |keys| && mask[j] ==> j in sel
    ensures IsSelection(keys, sel)
  {
    sel := [];
    for i := 0 to |keys|
      invariant forall o :: 0 <= o < |sel| ==> sel[o] < i && mask[sel[o]]
      invariant forall o1, o2 :: 0 <= o1 < o2 < |sel| ==> sel[o1] < sel[o2]
      invariant forall j :: 0 <= j < i && mask[j] ==> j in sel
    {
      if mask[i] {
        sel := sel + [i];
      }
    }
    forall i | 0 <= i < |keys|
      ensures Represented(keys, sel, keys[i])
    {
      var j :| 0 <= j < |keys| && mask[j] && keys[j] == keys[i];
      assert j in sel;
      var o :| 0 <= o < |sel| && sel[o] == j;
    }
  }

  /** `VoxelDownSample` on an attribute bundle. It fails when "points" is
      absent, and when some attribute's row count differs from the point
      count (the boolean mask of length N cannot index it). Otherwise the
      result is `DownSampled` for the selection the claim mask makes; `sel`
      names that selection for the lemmas below. */
  method DownSample(attrs: AttrMap, voxelSize: real) returns (r: Result<AttrMap>, ghost sel: seq<nat>)
    requires voxelSize > 0.0
    requires "points" in attrs ==> IsRowsOf3(attrs["points"].shape)
    ensures "points" !in attrs ==> r == Failure(MissingAttribute)
    ensures "points" in attrs ==> (r.Failure? <==> !RowsAgree(attrs))
    ensures "points" in attrs && r.Failure? ==> r.error == ShapeMismatch
    ensures r.Success? ==>
      && RowsAgree(attrs)
      && IsSelection(CellsOf(Rows3(attrs["points"]), voxelSize), sel)
      && r.value == DownSampled(attrs, sel, voxelSize)
  {
    sel := [];
    if "points" !in attrs {
      return Failure(MissingAttribute), sel;
    }
    var points := attrs["points"];
    var n := |points.rows|;
    var keys := CellsOf(Rows3(points), voxelSize);
    var mask := Activate(keys);
    var picked := MarkedRows(keys, mask);

    var anchors := FromRows3(Anchors(SelectedCells(keys, picked), voxelSize), points.device);
    var out: AttrMap := map["points" := anchors];
    var pending := attrs.Keys - {"points"};
    while pending != {}
      invariant pending <= attrs.Keys - {"points"}
      invariant out.Keys == attrs.Keys - pending
      invariant out["points"] == anchors
      invariant forall a :: a in out && a != "points" ==> |attrs[a].rows| == n && out[a] == Gather(attrs[a], picked)
      decreases pending
    {
      var a :| a in pending;
      if |attrs[a].rows| != n {
        return Failure(ShapeMismatch), sel;
      }
      out := out[a := Gather(attrs[a], picked)];
      pending := pending - {a};
    }
    sel := picked;
    assert RowsAgree(attrs);
    assert out == DownSampled(attrs, sel, voxelSize);
    r := Success(out);
  }

  /** The set of rows of a sequence of vectors. */
  function RowSet(ps: seq<Vec3>): set<Vec3> {
    set o | 0 <= o < |ps| :: ps[o]
  }

  /** The anchors of the distinct cells among the keys. */
  function AnchorSet(keys: seq<Cell>, voxelSize: real): set<Vec3> {
    set c | c in DistinctCells(keys) :: Anchor(c, voxelSize)
  }

  /** A sequence of pairwise distinct keys holds as many distinct keys as entries. */
  lemma {:induction false} DistinctCount(cells: seq<Cell>)
    requires forall o1, o2 :: 0 <= o1 < o2 < |cells| ==> cells[o1] != cells[o2]
    ensures |DistinctCells(cells)| == |cells|
  {
    var n := |cells|;
    if n > 0 {
      var init := cells[..n - 1];
      DistinctCount(init);
      assert DistinctCells(cells) == DistinctCells(init) + {cells[n - 1]};
      assert cells[n - 1] !in DistinctCells(init);
    }
  }

  /** There are never more distinct keys than rows. */
  lemma {:induction false} DistinctCountBound(keys: seq<Cell>)
    ensures |DistinctCells(keys)| <= |keys|
  {
    var n := |keys|;
    if n > 0 {
      var init := keys[..n - 1];
      DistinctCountBound(init);
      assert DistinctCells(keys) == DistinctCells(init) + {keys[n - 1]};
    }
  }

  /** A selection picks exactly the distinct keys, one row each, so it has
      as many rows as there are distinct keys, and no more than the input. */
  lemma SelectionCount(keys: seq<Cell>, sel: seq<nat>)
    requires IsSelection(keys, sel)
    ensures DistinctCells(SelectedCells(keys, sel)) == DistinctCells(keys)
    ensures |sel| == |DistinctCells(keys)| <= |keys|
  {
    var cells := SelectedCells(keys, sel);
    forall c | c in DistinctCells(keys)
      ensures c in DistinctCells(cells)
    {
      var i :| 0 <= i < |keys| && keys[i] == c;
      assert Represented(keys, sel, keys[i]);
      var o :| 0 <= o < |sel| && sel[o] < |keys| && keys[sel[o]] == c;
      assert cells[o] == c;
    }
    forall c | c in DistinctCells(cells)
      ensures c in DistinctCells(keys)
    {
      var o :| 0 <= o < |cells| && cells[o] == c;
      assert keys[sel[o]] == c;
    }
    DistinctCount(cells);
    DistinctCountBound(keys);
  }

  /** Quantising an anchor gives back its cell: k·s / s is exactly k. */
  lemma QuantizeAnchor(c: Cell, voxelSize: real)
    requires voxelSize > 0.0
    ensures Quantize(Anchor(c, voxelSize), voxelSize) == c
  {
    var a := Anchor(c, voxelSize);
    assert a[0] / voxelSize == c.x as real;
    assert a[1] / voxelSize == c.y as real;
    assert a[2] / voxelSize == c.z as real;
  }

  /** The output point rows are the anchors of the selected rows' cells. */
  lemma DownSampledRows(attrs: AttrMap, sel: seq<nat>, voxelSize: real)
    requires voxelSize > 0.0 && RowsAgree(attrs) && IsRowsOf3(attrs["points"].shape)
    requires forall o :: 0 <= o < |sel| ==> sel[o] < |attrs["points"].rows|
    ensures var keys := CellsOf(Rows3(attrs["points"]), voxelSize);
            var out := DownSampled(attrs, sel, voxelSize);
            && "points" in out && IsRowsOf3(out["points"].shape)
            && out["points"].device == attrs["points"].device
            && Rows3(out["points"]) == Anchors(SelectedCells(keys, sel), voxelSize)
  {
  }

  /** The points `VoxelDownSample` produces: one row per distinct input cell,
      each row the anchor of its selected row's cell, no anchor twice, and as
      a set exactly the anchors of the input's cells, whichever rows won. */
  lemma DownSampledPoints(attrs: AttrMap, sel: seq<nat>, voxelSize: real)
    requires voxelSize > 0.0 && RowsAgree(attrs) && IsRowsOf3(attrs["points"].shape)
    requires IsSelection(CellsOf(Rows3(attrs["points"]), voxelSize), sel)
    ensures var keys := CellsOf(Rows3(attrs["points"]), voxelSize);
            var out := DownSampled(attrs, sel, voxelSize);
            && "points" in out && IsRowsOf3(out["points"].shape)
            && out["points"].device == attrs["points"].device
            && |out["points"].rows| == |DistinctCells(keys)| <= |attrs["points"].rows|
            && (forall o :: 0 <= o < |sel| ==> Rows3(out["points"])[o] == Anchor(keys[sel[o]], voxelSize))
            && (forall o1, o2 :: 0 <= o1 < o2 < |sel| ==> Rows3(out["points"])[o1] != Rows3(out["points"])[o2])
            && RowSet(Rows3(out["points"])) == AnchorSet(keys, voxelSize)
  {
    var keys := CellsOf(Rows3(attrs["points"]), voxelSize);
    var cells := SelectedCells(keys, sel);
    DownSampledRows(attrs, sel, voxelSize);
    SelectionCount(keys, sel);
    DistinctAnchors(cells, voxelSize);
    AnchorRowSet(keys, sel, voxelSize);
  }

  /** Distinct cells have distinct anchors. */
  lemma DistinctAnchors(cells: seq<Cell>, voxelSize: real)
    requires voxelSize > 0.0
    requires forall o1, o2 :: 0 <= o1 < o2 < |cells| ==> cells[o1] != cells[o2]
    ensures forall o1, o2 :: 0 <= o1 < o2 < |cells| ==>
      Anchors(cells, voxelSize)[o1] != Anchors(cells, voxelSize)[o2]
  {
    forall o1, o2 | 0 <= o1 < o2 < |cells|
      ensures Anchors(cells, voxelSize)[o1] != Anchors(cells, voxelSize)[o2]
    {
      QuantizeAnchor(cells[o1], voxelSize);
      QuantizeAnchor(cells[o2], voxelSize);
    }
  }

  /** The anchors of a selection's cells are, as a set, the anchors of all cells. */
  lemma AnchorRowSet(keys: seq<Cell>, sel: seq<nat>, voxelSize: real)
    requires IsSelection(keys, sel)
    ensures RowSet(Anchors(SelectedCells(keys, sel), voxelSize)) == AnchorSet(keys, voxelSize)
  {
    var cells := SelectedCells(keys, sel);
    var ps := Anchors(cells, voxelSize);
    SelectionCount(keys, sel);
    forall v | v in AnchorSet(keys, voxelSize)
      ensures v in RowSet(ps)
    {
      var c :| c in DistinctCells(keys) && v == Anchor(c, voxelSize);
      assert c in DistinctCells(cells);
      var o :| 0 <= o < |cells| && cells[o] == c;
      assert ps[o] == v;
    }
    forall v | v in RowSet(ps)
      ensures v in AnchorSet(keys, voxelSize)
    {
      var o :| 0 <= o < |ps| && ps[o] == v;
      assert cells[o] in DistinctCells(cells);
    }
  }

  /** Every attribute of the input is in the output and only those; every
      output attribute has one row per selected row; every attribute other
      than "points" is the input's rows at the selected indices, on its own
      device, with its trailing shape kept. */
  lemma DownSampledAttributes(attrs: AttrMap, sel: seq<nat>, voxelSize: real)
    requires voxelSize > 0.0 && RowsAgree(attrs) && IsRowsOf3(attrs["points"].shape)
    requires IsSelection(CellsOf(Rows3(attrs["points"]), voxelSize), sel)
    ensures var out := DownSampled(attrs, sel, voxelSize);
            && out.Keys == attrs.Keys
            && (forall a :: a in out ==> |out[a].rows| == |sel|)
            && (forall a :: a in attrs && a != "points" ==>
                  && out[a].shape == [|sel|] + attrs[a].shape[1..]
                  && out[a].device == attrs[a].device
                  && forall o :: 0 <= o < |sel| ==> out[a].rows[o] == attrs[a].rows[sel[o]])
  {
  }

  /** Down-sampling its own output with the same voxel size keeps the point
      count: the anchors quantise back to pairwise distinct cells. */
  lemma CellStable(attrs: AttrMap, sel: seq<nat>, voxelSize: real, sel2: seq<nat>)
    requires voxelSize > 0.0 && RowsAgree(attrs) && IsRowsOf3(attrs["points"].shape)
    requires IsSelection(CellsOf(Rows3(attrs["points"]), voxelSize), sel)
    requires IsRowsOf3(DownSampled(attrs, sel, voxelSize)["points"].shape)
    requires IsSelection(CellsOf(Rows3(DownSampled(attrs, sel, voxelSize)["points"]), voxelSize), sel2)
    ensures |sel2| == |sel|
  {
    var keys := CellsOf(Rows3(attrs["points"]), voxelSize);
    var cells := SelectedCells(keys, sel);
    var keys2 := CellsOf(Rows3(DownSampled(attrs, sel, voxelSize)["points"]), voxelSize);
    assert keys2 == cells by {
      forall o | 0 <= o < |cells|
        ensures keys2[o] == cells[o]
      {
        QuantizeAnchor(cells[o], voxelSize);
      }
    }
    SelectionCount(keys, sel);
    DistinctCount(cells);
    SelectionCount(keys2, sel2);
  }

  /** Points (0,0,0), (0.1,0,0), (5,5,5) with voxel size 1 down-sample to
      exactly the anchors (0,0,0) and (5,5,5), whichever duplicate won. */
  lemma ThreePointExample(d: Device, sel: seq<nat>)
    requires IsSelection(CellsOf([[0.0, 0.0, 0.0], [0.1, 0.0, 0.0], [5.0, 5.0, 5.0]], 1.0), sel)
    ensures var attrs := map["points" := FromRows3([[0.0, 0.0, 0.0], [0.1, 0.0, 0.0], [5.0, 5.0, 5.0]], d)];
            Rows3(DownSampled(attrs, sel, 1.0)["points"]) == [[0.0, 0.0, 0.0], [5.0, 5.0, 5.0]]
  {
    var ps: seq<Vec3> := [[0.0, 0.0, 0.0], [0.1, 0.0, 0.0], [5.0, 5.0, 5.0]];
    var keys := CellsOf(ps, 1.0);
    ThreePointKeys();
    ThreePointSelection(sel);
    var attrs := map["points" := FromRows3(ps, d)];
    DownSampledRows(attrs, sel, 1.0);
    var cells := SelectedCells(keys, sel);
    assert cells == [Cell(0, 0, 0), Cell(5, 5, 5)];
    var qs := Anchors(cells, 1.0);
    assert qs[0] == [0.0, 0.0, 0.0] && qs[1] == [5.0, 5.0, 5.0];
    assert qs == [[0.0, 0.0, 0.0], [5.0, 5.0, 5.0]];
  }

  lemma ThreePointKeys()
    ensures CellsOf([[0.0, 0.0, 0.0], [0.1, 0.0, 0.0], [5.0, 5.0, 5.0]], 1.0)
      == [Cell(0, 0, 0), Cell(0, 0, 0), Cell(5, 5, 5)]
  {
    var ps: seq<Vec3> := [[0.0, 0.0, 0.0], [0.1, 0.0, 0.0], [5.0, 5.0, 5.0]];
    assert Quantize(ps[0], 1.0) == Cell(0, 0, 0);
    assert Quantize(ps[1], 1.0) == Cell(0, 0, 0);
    assert Quantize(ps[2], 1.0) == Cell(5, 5, 5);
  }

  /** Over keys [a, a, b] with a ≠ b, a selection picks row 0 or 1, then row 2. */
  lemma ThreePointSelection(sel: seq<nat>)
    requires IsSelection([Cell(0, 0, 0), Cell(0, 0, 0), Cell(5, 5, 5)], sel)
    ensures SelectedCells([Cell(0, 0, 0), Cell(0, 0, 0), Cell(5, 5, 5)], sel) == [Cell(0, 0, 0), Cell(5, 5, 5)]
  {
    var keys := [Cell(0, 0, 0), Cell(0, 0, 0), Cell(5, 5, 5)];
    assert DistinctCells(keys) == {Cell(0, 0, 0), Cell(5, 5, 5)} by {
      assert keys[0] in DistinctCells(keys) && keys[2] in DistinctCells(keys);
    }
    SelectionCount(keys, sel);
    assert |sel| == 2;
    assert sel[1] == 2;
  }

  /** With voxel size 1, x = -0.5 and x = 0.5 truncate to the same cell 0,
      so two such points down-sample to the single anchor (0,0,0). */
  lemma TruncationExample(d: Device, sel: seq<nat>)
    requires IsSelection(CellsOf([[-0.5, 0.0, 0.0], [0.5, 0.0, 0.0]], 1.0), sel)
    ensures var attrs := map["points" := FromRows3([[-0.5, 0.0, 0.0], [0.5, 0.0, 0.0]], d)];
            Rows3(DownSampled(attrs, sel, 1.0)["points"]) == [[0.0, 0.0, 0.0]]
  {
    var ps: seq<Vec3> := [[-0.5, 0.0, 0.0], [0.5, 0.0, 0.0]];
    var keys := CellsOf(ps, 1.0);
    assert keys == [Cell(0, 0, 0), Cell(0, 0, 0)];
    assert DistinctCells(keys) == {Cell(0, 0, 0)} by {
      assert keys[0] in DistinctCells(keys);
    }
    SelectionCount(keys, sel);
    var attrs := map["points" := FromRows3(ps, d)];
    assert Rows3(DownSampled(attrs, sel, 1.0)["points"]) == Anchors([Cell(0, 0, 0)], 1.0);
  }
}
