// Adjacency records of the mesh (fastiron/src/geometry/facets.rs,
// mc_location.rs and the CellInfo record of mesh_partition.rs): the integer
// and enumeration part; the plane coefficients of a facet are floats and
// are not part of this model.

module Facets {
  import opened Wrappers

  /** What lies on the other side of a facet. */
  datatype MCSubfacetAdjacencyEvent =
    | AdjacencyUndefined
    | BoundaryEscape
    | BoundaryReflection
    | TransitOnProcessor
    | TransitOffProcessor
  {
    predicate IsBoundary()
    {
      BoundaryEscape? || BoundaryReflection?
    }

    predicate IsTransit()
    {
      TransitOnProcessor? || TransitOffProcessor?
    }
  }

  /** A place in the mesh: domain, cell and facet indices, each possibly unset. */
  datatype MCLocation = MCLocation(domain: Option<nat>, cell: Option<nat>, facet: Option<nat>)

  /** Partition data of one cell. */
  datatype CellInfo = CellInfo(
    domainGid: Option<nat>,
    foreman: Option<nat>,
    domainIndex: Option<nat>,
    cellIndex: Option<nat>)

  /** The oriented junction of a facet between the current cell and its neighbour. */
  datatype SubfacetAdjacency = SubfacetAdjacency(
    event: MCSubfacetAdjacencyEvent,
    current: MCLocation,
    adjacent: MCLocation,
    neighborIndex: Option<nat>,
    neighborGlobalDomain: Option<nat>,
    neighborForeman: Option<nat>)

  /** The three node indices of a facet ([usize; N_POINTS_PER_FACET]). */
  type Triple = s: seq<nat> | |s| == 3 witness [0, 0, 0]

  datatype MCFacetAdjacency = MCFacetAdjacency(subfacet: SubfacetAdjacency, point: Triple)
}
