// Mesh-domain construction helpers of fastiron/src/geometry/mc_domain.rs:
// the facet tables of a cell, make_facet, the boundary-condition mapping and
// the material lookup of a cell position.

module McDomain {
  import opened Wrappers
  import opened Facets
  import FccGrid
  import opened McVector
  import opened Parameters

  /** What a cell knows about one of its faces: the crossing event, the
      neighbouring cell and the local index of the neighbour's domain. */
  datatype FaceInfo = FaceInfo(event: MCSubfacetAdjacencyEvent, cellInfo: CellInfo, nbrIdx: Option<nat>)

  const N_POINTS_PER_FACET: nat := 3
  const N_FACETS_OUT: nat := 24

  /** For each of the 24 outward facets (four triangles per face), the cell
      nodes it joins: two corners and the centre of its face. */
  const NODE_INDIRECT: seq<Triple> := [
    [1, 3, 8], [3, 7, 8], [7, 5, 8], [5, 1, 8],
    [0, 4, 9], [4, 6, 9], [6, 2, 9], [2, 0, 9],
    [3, 2, 10], [2, 6, 10], [6, 7, 10], [7, 3, 10],
    [0, 1, 11], [1, 5, 11], [5, 4, 11], [4, 0, 11],
    [4, 5, 12], [5, 7, 12], [7, 6, 12], [6, 4, 12],
    [0, 2, 13], [2, 3, 13], [3, 1, 13], [1, 0, 13]]

  /** For each facet, the facet of the face neighbour that covers the same triangle. */
  const OPPOSING_FACET: seq<nat> := [
    7, 6, 5, 4, 3, 2, 1, 0, 12, 15, 14, 13, 8, 11, 10, 9, 20, 23, 22, 21, 16, 19, 18, 17]

  /** Faces come in pairs +x, -x, +y, -y, +z, -z (the order of FACE_OFFSET). */
  function OppositeFace(face: nat): nat
  {
    if face % 2 == 0 then face + 1 else face - 1
  }

  /** The lattice offset of a cell node, without its basis index. */
  function NodeOffset(node: nat): (int, int, int)
    requires node < FccGrid.N_POINTS_INTERSEC
  {
    var c := FccGrid.CORNER_OFFSET[node];
    (c.0, c.1, c.2)
  }

  /** The coordinate of an offset along the axis of a face. */
  function AlongAxis(p: (int, int, int), face: nat): int
  {
    if face / 2 == 0 then p.0 else if face / 2 == 1 then p.1 else p.2
  }

  /** Every facet joins two corner nodes of its face to the centre node of that face. */
  lemma NodeIndirectShape()
    ensures |NODE_INDIRECT| == N_FACETS_OUT
    ensures forall f :: 0 <= f < N_FACETS_OUT ==>
      && NODE_INDIRECT[f][0] < 8 && NODE_INDIRECT[f][1] < 8
      && NODE_INDIRECT[f][2] == 8 + f / 4
      && AlongAxis(NodeOffset(NODE_INDIRECT[f][0]), f / 4) == (if (f / 4) % 2 == 0 then 1 else 0)
      && AlongAxis(NodeOffset(NODE_INDIRECT[f][1]), f / 4) == (if (f / 4) % 2 == 0 then 1 else 0)
  {
  }

  /** The four facets of a face walk around its boundary: each one starts
      where the previous one ends. */
  lemma FacetsCloseAroundFace()
    ensures forall f :: 0 <= f < N_FACETS_OUT ==>
      NODE_INDIRECT[f][1] == NODE_INDIRECT[4 * (f / 4) + (f % 4 + 1) % 4][0]
  {
  }

  /** OPPOSING_FACET is an involution on the 24 facets and sends a facet to the opposite face. */
  lemma OpposingFacetInvolution()
    ensures |OPPOSING_FACET| == N_FACETS_OUT
    ensures forall f :: 0 <= f < N_FACETS_OUT ==>
      && OPPOSING_FACET[f] < N_FACETS_OUT
      && OPPOSING_FACET[OPPOSING_FACET[f]] == f
      && OPPOSING_FACET[f] / 4 == OppositeFace(f / 4)
  {
    forall f | 0 <= f < N_FACETS_OUT
      ensures OPPOSING_FACET[f] < N_FACETS_OUT && OPPOSING_FACET[OPPOSING_FACET[f]] == f
      ensures OPPOSING_FACET[f] / 4 == OppositeFace(f / 4)
    {
      FacetCases(f);
    }
  }

  /** Splits a facet index into its 24 values. */
  lemma FacetCases(f: int)
    requires 0 <= f < N_FACETS_OUT
    ensures f == 0 || f == 1 || f == 2 || f == 3 || f == 4 || f == 5 || f == 6 || f == 7
      || f == 8 || f == 9 || f == 10 || f == 11 || f == 12 || f == 13 || f == 14 || f == 15
      || f == 16 || f == 17 || f == 18 || f == 19 || f == 20 || f == 21 || f == 22 || f == 23
  {
  }

  /** make_facet: fills the facet of index location.facet from the node
      indices of its cell and the data of the face it lies on. Every field is
      overwritten, so the previous content of the facet does not matter. */
  method MakeFacet(facet: MCFacetAdjacency, location: MCLocation, nodeIdx: seq<nat>, faceInfo: seq<FaceInfo>)
    returns (r: MCFacetAdjacency)
    requires location.facet.Some? && location.facet.value < N_FACETS_OUT
    requires forall k :: 0 <= k < N_POINTS_PER_FACET ==> NODE_INDIRECT[location.facet.value][k] < |nodeIdx|
    requires location.facet.value / 4 < |faceInfo|
    ensures var f := location.facet.value; var info := faceInfo[f / 4];
      && (forall k :: 0 <= k < N_POINTS_PER_FACET ==> r.point[k] == nodeIdx[NODE_INDIRECT[f][k]])
      // the third point is the centre node of the face
      && NODE_INDIRECT[f][2] == 8 + f / 4 && r.point[2] == nodeIdx[8 + f / 4]
      && r.subfacet.event == info.event
      && r.subfacet.current == location
      && r.subfacet.adjacent.domain == info.cellInfo.domainIndex
      && r.subfacet.adjacent.cell == info.cellInfo.cellIndex
      && r.subfacet.neighborIndex == info.nbrIdx
      && r.subfacet.neighborGlobalDomain == info.cellInfo.domainGid
      && r.subfacet.neighborForeman == info.cellInfo.foreman
    // on a boundary the facet is its own adjacent facet
    ensures r.subfacet.event.IsBoundary() ==> r.subfacet.adjacent.facet == location.facet
    // otherwise the adjacent facet lies on the opposite face and leads back here
    ensures !r.subfacet.event.IsBoundary() ==>
      var f := location.facet.value;
      && r.subfacet.adjacent.facet == Some(OPPOSING_FACET[f])
      && OPPOSING_FACET[f] / 4 == OppositeFace(f / 4)
      && OPPOSING_FACET[OPPOSING_FACET[f]] == f
  {
    NodeIndirectShape();
    OpposingFacetInvolution();
    var facetId := location.facet.value;
    var faceId := facetId / 4;
    var info := faceInfo[faceId];
    r := facet;
    r := r.(point := r.point[0 := nodeIdx[NODE_INDIRECT[facetId][0]]]);
    r := r.(point := r.point[1 := nodeIdx[NODE_INDIRECT[facetId][1]]]);
    r := r.(point := r.point[2 := nodeIdx[NODE_INDIRECT[facetId][2]]]);
    var sub := r.subfacet;
    sub := sub.(event := info.event);
    sub := sub.(current := location);
    sub := sub.(adjacent := sub.adjacent.(domain := info.cellInfo.domainIndex));
    sub := sub.(adjacent := sub.adjacent.(cell := info.cellInfo.cellIndex));
    sub := sub.(adjacent := sub.adjacent.(facet := Some(OPPOSING_FACET[facetId])));
    sub := sub.(neighborIndex := info.nbrIdx);
    sub := sub.(neighborGlobalDomain := info.cellInfo.domainGid);
    sub := sub.(neighborForeman := info.cellInfo.foreman);
    match sub.event {
      case BoundaryReflection | BoundaryEscape =>
        sub := sub.(adjacent := sub.adjacent.(facet := sub.current.facet));
      case _ =>
    }
    r := r.(subfacet := sub);
  }

  /** get_boundary_conditions: the event of each of the six boundary faces.
      Any other string than the three known ones is a panic in the source and
      None here. */
  function GetBoundaryConditions(boundaryCondition: string): (r: Option<seq<MCSubfacetAdjacencyEvent>>)
    ensures r.Some? <==> boundaryCondition in {"reflect", "escape", "octant"}
    ensures r.Some? ==> |r.value| == FccGrid.N_FACES && forall i :: 0 <= i < |r.value| ==> r.value[i].IsBoundary()
    ensures boundaryCondition == "reflect" ==> forall i :: 0 <= i < |r.value| ==> r.value[i] == BoundaryReflection
    ensures boundaryCondition == "escape" ==> forall i :: 0 <= i < |r.value| ==> r.value[i] == BoundaryEscape
    // octant: particles escape through the +x, +y, +z faces and reflect on the -x, -y, -z faces
    ensures boundaryCondition == "octant" ==> forall i :: 0 <= i < |r.value| ==>
      r.value[i] == if FccGrid.FACE_OFFSET[i].0 + FccGrid.FACE_OFFSET[i].1 + FccGrid.FACE_OFFSET[i].2 > 0
                    then BoundaryEscape else BoundaryReflection
  {
    match boundaryCondition
    case "reflect" => Some(seq(6, _ => BoundaryReflection))
    case "escape" => Some(seq(6, _ => BoundaryEscape))
    case "octant" => Some([BoundaryEscape, BoundaryReflection, BoundaryEscape,
                           BoundaryReflection, BoundaryEscape, BoundaryReflection])
    case _ => None
  }

  /** is_inside: a brick is closed on every axis; for a sphere the comparison
      |rr - center| <= radius is written without the square root, as the
      equivalent radius >= 0 and |rr - center|^2 <= radius^2. An Undefined
      shape is unreachable in the source. */
  predicate IsInside(geom: GeometryParameters, rr: MCVector)
    requires geom.shape != Undefined
  {
    match geom.shape
    case Brick =>
      && geom.xMin <= rr.x <= geom.xMax
      && geom.yMin <= rr.y <= geom.yMax
      && geom.zMin <= rr.z <= geom.zMax
    case Sphere =>
      geom.radius >= 0.0 && Dist2(rr, MCVector(geom.xCenter, geom.yCenter, geom.zCenter)) <= geom.radius * geom.radius
  }

  predicate AllDefined(geoms: seq<GeometryParameters>)
  {
    forall i :: 0 <= i < |geoms| ==> geoms[i].shape != Undefined
  }

  /** The index of the first geometry of the list that contains rr. */
  function FirstInside(geoms: seq<GeometryParameters>, rr: MCVector): (r: Option<nat>)
    requires AllDefined(geoms)
    ensures r.Some? ==> r.value < |geoms| && IsInside(geoms[r.value], rr)
    ensures r.Some? ==> forall j :: 0 <= j < r.value ==> !IsInside(geoms[j], rr)
    ensures r.None? ==> forall j :: 0 <= j < |geoms| ==> !IsInside(geoms[j], rr)
  {
    if |geoms| == 0 then None
    else if IsInside(geoms[0], rr) then Some(0)
    else match FirstInside(geoms[1..], rr)
      case None => None
      case Some(k) => Some(k + 1)
  }

  /** The material of the first geometry containing rr, or "" when none does. */
  function MaterialOf(geoms: seq<GeometryParameters>, rr: MCVector): string
    requires AllDefined(geoms)
  {
    match FirstInside(geoms, rr)
    case None => ""
    case Some(k) => geoms[k].materialName
  }

  /** find_material: walks the geometries from the last to the first and keeps
      the name of the last one seen that contains rr, i.e. the first in list order. */
  method FindMaterial(geoms: seq<GeometryParameters>, rr: MCVector) returns (matName: string)
    requires AllDefined(geoms)
    ensures matName == MaterialOf(geoms, rr)
  {
    matName := "";
    var i := |geoms|;
    while i > 0
      invariant 0 <= i <= |geoms|
      invariant matName == MaterialOf(geoms[i..], rr)
    {
      i := i - 1;
      assert geoms[i..][1..] == geoms[i + 1..];
      if IsInside(geoms[i], rr) {
        matName := geoms[i].materialName;
      }
    }
    assert geoms[0..] == geoms;
  }

  /** The first containing geometry is determined by the containment facts alone. */
  lemma FirstIs(geoms: seq<GeometryParameters>, rr: MCVector, k: nat)
    requires AllDefined(geoms) && k < |geoms| && IsInside(geoms[k], rr)
    requires forall j :: 0 <= j < k ==> !IsInside(geoms[j], rr)
    ensures FirstInside(geoms, rr) == Some(k)
  {
  }
}

// The expectations of the inside_material unit test of the mesh domain.
module McDomainExamples {
  import opened McDomain
  import opened McVector
  import opened Parameters

  /** The four geometries of the inside_material unit test. */
  const TEST_GEOMETRIES: seq<GeometryParameters> := [
    GeometryParameters("mat_a", Sphere, 1.0, 2.0, 2.0, 2.0, 0.0, 0.0, 0.0, 0.0, 0.0, 0.0),
    GeometryParameters("mat_b", Brick, 0.0, 0.0, 0.0, 0.0, 0.0, 0.0, 0.0, 4.0, 2.0, 1.0),
    GeometryParameters("mat_c", Sphere, 2.0, 6.0, 2.0, 2.0, 0.0, 0.0, 0.0, 0.0, 0.0, 0.0),
    GeometryParameters("mat_d", Brick, 0.0, 0.0, 0.0, 0.0, 0.0, 2.0, 0.0, 4.0, 4.0, 1.0)]

  lemma TestGeometriesDefined()
    ensures AllDefined(TEST_GEOMETRIES)
  {
  }

  /** The containment tests of the four test geometries, spelled out. */
  lemma TestGeometriesAt(rr: MCVector)
    ensures AllDefined(TEST_GEOMETRIES)
    ensures IsInside(TEST_GEOMETRIES[0], rr) <==> Dist2(rr, MCVector(2.0, 2.0, 2.0)) <= 1.0
    ensures IsInside(TEST_GEOMETRIES[1], rr) <==> 0.0 <= rr.x <= 4.0 && 0.0 <= rr.y <= 2.0 && 0.0 <= rr.z <= 1.0
    ensures IsInside(TEST_GEOMETRIES[2], rr) <==> Dist2(rr, MCVector(6.0, 2.0, 2.0)) <= 4.0
    ensures IsInside(TEST_GEOMETRIES[3], rr) <==> 0.0 <= rr.x <= 4.0 && 2.0 <= rr.y <= 4.0 && 0.0 <= rr.z <= 1.0
  {
    TestGeometriesDefined();
  }

  /** The expectations of that test: the first geometry of the list wins, and
      bounds are inclusive (the point (2, 2, 1) lies on both a and b). */
  lemma InsideMaterialExamples()
    ensures AllDefined(TEST_GEOMETRIES)
    ensures MaterialOf(TEST_GEOMETRIES, MCVector(2.0, 1.0, 0.5)) == "mat_b"
    ensures MaterialOf(TEST_GEOMETRIES, MCVector(2.0, 2.1, 0.5)) == "mat_d"
    ensures MaterialOf(TEST_GEOMETRIES, MCVector(1.5, 2.0, 2.5)) == "mat_a"
    ensures MaterialOf(TEST_GEOMETRIES, MCVector(2.0, 2.0, 1.0)) == "mat_a"
    ensures MaterialOf(TEST_GEOMETRIES, MCVector(5.0, 2.0, 2.0)) == "mat_c"
  {
    TestGeometriesDefined();
    InsideMaterialBrickB();
    InsideMaterialBrickD();
    InsideMaterialSphereA();
    InsideMaterialBoundary();
    InsideMaterialSphereC();
  }

  lemma InsideMaterialBrickB()
    ensures MaterialOf(TEST_GEOMETRIES, MCVector(2.0, 1.0, 0.5)) == "mat_b"
  {
    var rr := MCVector(2.0, 1.0, 0.5);
    TestGeometriesAt(rr);
    DistancesBrickB();
    FirstIs(TEST_GEOMETRIES, rr, 1);
  }

  /** The squared distances of that point to the two sphere centres. */
  lemma DistancesBrickB()
    ensures Dist2(MCVector(2.0, 1.0, 0.5), MCVector(2.0, 2.0, 2.0)) == 3.25
    ensures Dist2(MCVector(2.0, 1.0, 0.5), MCVector(6.0, 2.0, 2.0)) == 19.25
  {
  }

  lemma InsideMaterialBrickD()
    ensures MaterialOf(TEST_GEOMETRIES, MCVector(2.0, 2.1, 0.5)) == "mat_d"
  {
    var rr := MCVector(2.0, 2.1, 0.5);
    TestGeometriesAt(rr);
    DistancesBrickD();
    FirstIs(TEST_GEOMETRIES, rr, 3);
  }

  /** The squared distances of that point to the two sphere centres. */
  lemma DistancesBrickD()
    ensures Dist2(MCVector(2.0, 2.1, 0.5), MCVector(2.0, 2.0, 2.0)) == 2.26
    ensures Dist2(MCVector(2.0, 2.1, 0.5), MCVector(6.0, 2.0, 2.0)) == 18.26
  {
  }

  lemma InsideMaterialSphereA()
    ensures MaterialOf(TEST_GEOMETRIES, MCVector(1.5, 2.0, 2.5)) == "mat_a"
  {
    var rr := MCVector(1.5, 2.0, 2.5);
    TestGeometriesAt(rr);
    DistancesSphereA();
    assert IsInside(TEST_GEOMETRIES[0], rr);
  }

  /** The squared distances of that point to the two sphere centres. */
  lemma DistancesSphereA()
    ensures Dist2(MCVector(1.5, 2.0, 2.5), MCVector(2.0, 2.0, 2.0)) == 0.5
    ensures Dist2(MCVector(1.5, 2.0, 2.5), MCVector(6.0, 2.0, 2.0)) == 20.5
  {
  }

  lemma InsideMaterialBoundary()
    ensures MaterialOf(TEST_GEOMETRIES, MCVector(2.0, 2.0, 1.0)) == "mat_a"
  {
    var rr := MCVector(2.0, 2.0, 1.0);
    TestGeometriesAt(rr);
    DistancesBoundary();
    assert IsInside(TEST_GEOMETRIES[0], rr);
  }

  /** The squared distances of that point to the two sphere centres. */
  lemma DistancesBoundary()
    ensures Dist2(MCVector(2.0, 2.0, 1.0), MCVector(2.0, 2.0, 2.0)) == 1.0
    ensures Dist2(MCVector(2.0, 2.0, 1.0), MCVector(6.0, 2.0, 2.0)) == 17.0
  {
  }

  lemma InsideMaterialSphereC()
    ensures MaterialOf(TEST_GEOMETRIES, MCVector(5.0, 2.0, 2.0)) == "mat_c"
  {
    var rr := MCVector(5.0, 2.0, 2.0);
    TestGeometriesAt(rr);
    DistancesSphereC();
    FirstIs(TEST_GEOMETRIES, rr, 2);
  }

  /** The squared distances of that point to the two sphere centres. */
  lemma DistancesSphereC()
    ensures Dist2(MCVector(5.0, 2.0, 2.0), MCVector(2.0, 2.0, 2.0)) == 9.0
    ensures Dist2(MCVector(5.0, 2.0, 2.0), MCVector(6.0, 2.0, 2.0)) == 1.0
  {
  }
}
