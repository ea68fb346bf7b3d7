// The global face-centred-cubic grid of src/geometry/global_fcc_grid.rs:
// cells and nodes are numbered in x-fastest mixed radix, and the offset
// tables of fastiron/src/geometry/mod.rs name the 14 nodes and 6 face
// neighbours of a cell.

module FccGrid {
  import Arith

  type Tuple3 = (nat, nat, nat)
  type Tuple4 = (nat, nat, nat, nat)

  const N_POINTS_INTERSEC: nat := 14
  const N_FACES: nat := 6

  /** Offsets of the 14 nodes of a cell: a corner offset and a basis index. */
  const CORNER_OFFSET: seq<Tuple4> := [
    (0, 0, 0, 0), (1, 0, 0, 0), (0, 1, 0, 0), (1, 1, 0, 0),
    (0, 0, 1, 0), (1, 0, 1, 0), (0, 1, 1, 0), (1, 1, 1, 0),
    (1, 0, 0, 1), (0, 0, 0, 1), (0, 1, 0, 2), (0, 0, 0, 2),
    (0, 0, 1, 3), (0, 0, 0, 3)]

  /** Offsets of the 6 face neighbours: +x, -x, +y, -y, +z, -z. */
  const FACE_OFFSET: seq<(int, int, int)> := [
    (1, 0, 0), (-1, 0, 0), (0, 1, 0), (0, -1, 0), (0, 0, 1), (0, 0, -1)]

  lemma CornerOffsetsDistinct()
    ensures |CORNER_OFFSET| == N_POINTS_INTERSEC && |FACE_OFFSET| == N_FACES
    ensures forall i, j :: 0 <= i < j < |CORNER_OFFSET| ==> CORNER_OFFSET[i] != CORNER_OFFSET[j]
  {
  }

  /** The integer part of GlobalFccGrid: the number of cells on each axis. */
  datatype GlobalFccGrid = GlobalFccGrid(nx: nat, ny: nat, nz: nat)
  {
    predicate Valid()
    {
      nx >= 1 && ny >= 1 && nz >= 1
    }

    function NumCells(): nat
    {
      nx * ny * nz
    }

    predicate InGrid(t: (int, int, int))
    {
      0 <= t.0 < nx && 0 <= t.1 < ny && 0 <= t.2 < nz
    }

    /** cell_idx_to_tuple */
    function CellIdxToTuple(idx: nat): Tuple3
      requires Valid()
    {
      var x := idx % nx;
      var tmp := idx / nx;
      (x, tmp % ny, tmp / ny)
    }

    /** cell_tuple_to_idx */
    function CellTupleToIdx(t: Tuple3): nat
    {
      t.0 + nx * (t.1 + ny * t.2)
    }

    lemma CellIdxRoundTrip(idx: nat)
      requires Valid() && idx < NumCells()
      ensures InGrid(CellIdxToTuple(idx))
      ensures CellTupleToIdx(CellIdxToTuple(idx)) == idx
    {
      var tmp := idx / nx;
      assert nx * (ny * nz) == NumCells();
      Arith.DivBelow(idx, nx, ny * nz);
      Arith.DivBelow(tmp, ny, nz);
    }

    lemma CellTupleRoundTrip(t: Tuple3)
      requires Valid() && InGrid(t)
      ensures CellTupleToIdx(t) < NumCells()
      ensures CellIdxToTuple(CellTupleToIdx(t)) == t
    {
      Arith.MixedRadix(t.1, t.2, ny, nz);
      Arith.MixedRadix(t.0, t.1 + ny * t.2, nx, ny * nz);
      assert nx * (ny * nz) == NumCells();
    }

    /** node_tuple_to_idx: nodes have one more position than cells on each
        axis, and the basis index is the most significant digit. */
    function NodeTupleToIdx(t: Tuple4): nat
    {
      t.0 + (nx + 1) * (t.1 + (ny + 1) * (t.2 + (nz + 1) * t.3))
    }

    /** node_idx_to_tuple */
    function NodeIdxToTuple(idx: nat): Tuple4
    {
      var x: nat := idx % (nx + 1);
      var qx: nat := idx / (nx + 1);
      var y: nat := qx % (ny + 1);
      var qy: nat := qx / (ny + 1);
      var z: nat := qy % (nz + 1);
      var b: nat := qy / (nz + 1);
      (x, y, z, b)
    }

    predicate NodeInRange(t: Tuple4)
    {
      t.0 <= nx && t.1 <= ny && t.2 <= nz
    }

    lemma NodeTupleRoundTrip(t: Tuple4)
      requires NodeInRange(t)
      ensures NodeIdxToTuple(NodeTupleToIdx(t)) == t
    {
      var inner := t.2 + (nz + 1) * t.3;
      Arith.DivModUnique(inner, nz + 1, t.3, t.2);
      Arith.DivModUnique(t.1 + (ny + 1) * inner, ny + 1, inner, t.1);
      Arith.DivModUnique(NodeTupleToIdx(t), nx + 1, t.1 + (ny + 1) * inner, t.0);
    }

    lemma NodeIdxRoundTrip(idx: nat)
      ensures NodeInRange(NodeIdxToTuple(idx))
      ensures NodeTupleToIdx(NodeIdxToTuple(idx)) == idx
    {
    }

    /** The node at corner offset ii of the cell with tuple tt. */
    function CornerNode(tt: Tuple3, ii: nat): Tuple4
      requires ii < N_POINTS_INTERSEC
    {
      var off := CORNER_OFFSET[ii];
      (tt.0 + off.0, tt.1 + off.1, tt.2 + off.2, off.3)
    }

    /** get_node_gids: the 14 node ids of a cell, one per corner offset, all distinct. */
    method GetNodeGids(cellGid: nat) returns (nodeGid: seq<nat>)
      requires Valid() && cellGid < NumCells()
      ensures |nodeGid| == N_POINTS_INTERSEC
      ensures forall ii :: 0 <= ii < N_POINTS_INTERSEC ==>
                NodeIdxToTuple(nodeGid[ii]) == CornerNode(CellIdxToTuple(cellGid), ii)
      ensures forall i, j :: 0 <= i < j < N_POINTS_INTERSEC ==> nodeGid[i] != nodeGid[j]
    {
      nodeGid := seq(N_POINTS_INTERSEC, _ => 0);
      var tt := CellIdxToTuple(cellGid);
      CellIdxRoundTrip(cellGid);
      for ii := 0 to N_POINTS_INTERSEC
        invariant |nodeGid| == N_POINTS_INTERSEC
        invariant forall k :: 0 <= k < ii ==> NodeIdxToTuple(nodeGid[k]) == CornerNode(tt, k)
      {
        var tmp: Tuple4 := (tt.0 + CORNER_OFFSET[ii].0, tt.1 + CORNER_OFFSET[ii].1,
                            tt.2 + CORNER_OFFSET[ii].2, CORNER_OFFSET[ii].3);
        NodeTupleRoundTrip(tmp);
        nodeGid := nodeGid[ii := NodeTupleToIdx(tmp)];
      }
      CornerOffsetsDistinct();
    }

    /** snap_turtle: each component is moved to the nearest position inside
        the grid; positions inside are kept. */
    function SnapTurtle(tt: (int, int, int)): (r: Tuple3)
      requires Valid()
      ensures InGrid(r)
      ensures InGrid(tt) ==> r == tt
      ensures Nearest(r.0, tt.0, nx) && Nearest(r.1, tt.1, ny) && Nearest(r.2, tt.2, nz)
    {
      (Clamp(tt.0, nx), Clamp(tt.1, ny), Clamp(tt.2, nz))
    }

    /** get_face_nbr_gids: the 6 face neighbours of a cell, in FACE_OFFSET
        order. A neighbour outside the grid snaps back onto the cell itself. */
    method GetFaceNbrGids(cellGid: nat) returns (nbrCellGid: seq<nat>)
      requires Valid() && cellGid < NumCells()
      ensures |nbrCellGid| == N_FACES
      ensures forall ii :: 0 <= ii < N_FACES ==> nbrCellGid[ii] < NumCells()
      ensures forall ii :: 0 <= ii < N_FACES ==>
                nbrCellGid[ii] == CellTupleToIdx(SnapTurtle(FaceNeighbour(CellIdxToTuple(cellGid), ii)))
      ensures forall ii :: 0 <= ii < N_FACES && InGrid(FaceNeighbour(CellIdxToTuple(cellGid), ii)) ==>
                CellIdxToTuple(nbrCellGid[ii]) == FaceNeighbour(CellIdxToTuple(cellGid), ii)
      ensures forall ii :: 0 <= ii < N_FACES ==>
                (nbrCellGid[ii] == cellGid <==> !InGrid(FaceNeighbour(CellIdxToTuple(cellGid), ii)))
    {
      nbrCellGid := seq(N_FACES, _ => 0);
      var cellTt := CellIdxToTuple(cellGid);
      CellIdxRoundTrip(cellGid);
      for ii := 0 to N_FACES
        invariant |nbrCellGid| == N_FACES
        invariant forall k :: 0 <= k < ii ==>
                    nbrCellGid[k] == CellTupleToIdx(SnapTurtle(FaceNeighbour(cellTt, k)))
        invariant forall k :: 0 <= k < ii ==> nbrCellGid[k] < NumCells()
        invariant forall k :: 0 <= k < ii && InGrid(FaceNeighbour(cellTt, k)) ==>
                    CellIdxToTuple(nbrCellGid[k]) == FaceNeighbour(cellTt, k)
        invariant forall k :: 0 <= k < ii ==>
                    (nbrCellGid[k] == cellGid <==> !InGrid(FaceNeighbour(cellTt, k)))
      {
        var faceNbr := (cellTt.0 + FACE_OFFSET[ii].0, cellTt.1 + FACE_OFFSET[ii].1,
                        cellTt.2 + FACE_OFFSET[ii].2);
        var snapped := SnapTurtle(faceNbr);
        CellTupleRoundTrip(snapped);
        SnapOfFaceNeighbour(cellTt, ii);
        nbrCellGid := nbrCellGid[ii := CellTupleToIdx(snapped)];
      }
    }

    /** Snapping a face neighbour gives the cell itself exactly when the
        neighbour lies outside the grid. */
    lemma SnapOfFaceNeighbour(tt: Tuple3, ii: nat)
      requires Valid() && InGrid(tt) && ii < N_FACES
      ensures (SnapTurtle(FaceNeighbour(tt, ii)) == tt) <==> !InGrid(FaceNeighbour(tt, ii))
    {
    }
  }

  /** The face neighbour position ii of a cell, possibly outside the grid. */
  function FaceNeighbour(tt: Tuple3, ii: nat): (int, int, int)
    requires ii < N_FACES
  {
    (tt.0 + FACE_OFFSET[ii].0, tt.1 + FACE_OFFSET[ii].1, tt.2 + FACE_OFFSET[ii].2)
  }

  /** (v.max(0) as usize).min(n - 1) */
  function Clamp(v: int, n: nat): nat
    requires n >= 1
  {
    if v < 0 then 0 else if v > n - 1 then n - 1 else v
  }

  /** c is, among the positions 0..n-1, one closest to v. */
  ghost predicate Nearest(c: int, v: int, n: nat)
  {
    0 <= c < n && forall p :: 0 <= p < n ==> Dist(c, v) <= Dist(p, v)
  }

  function Dist(a: int, b: int): nat
  {
    if a < b then b - a else a - b
  }

  /** The expectations of the snap_turtle unit test on a 3 x 3 x 3 grid. */
  lemma SnapTurtleExamples()
    ensures GlobalFccGrid(3, 3, 3).SnapTurtle((0, 2, 1)) == (0, 2, 1)
    ensures GlobalFccGrid(3, 3, 3).SnapTurtle((3, -1, -2)) == (2, 0, 0)
  {
  }
}
