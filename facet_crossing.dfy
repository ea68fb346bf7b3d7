// facet_crossing_event of fastiron/src/simulation/mc_facet_crossing_event.rs:
// how a particle that reaches a facet is moved according to the adjacency
// event of that facet.

module FacetCrossing {
  import opened Wrappers
  import opened Facets
  import opened Tallies
  import opened Particle

  /** Why the crossing panics: an undefined adjacency, or a transit whose
      adjacent location is incomplete (`unwrap` on None). */
  datatype CrossingError = UndefinedAdjacency | MissingAdjacent

  /** The adjacent location is fully set. */
  predicate AdjacentDefined(adj: SubfacetAdjacency)
  {
    adj.adjacent.domain.Some? && adj.adjacent.cell.Some? && adj.adjacent.facet.Some?
  }

  /** The tally event recorded for each adjacency event. */
  function CrossingTally(event: MCSubfacetAdjacencyEvent): MCTallyEvent
    requires event != AdjacencyUndefined
  {
    match event
    case TransitOnProcessor => FacetCrossingTransitExit
    case BoundaryEscape => FacetCrossingEscape
    case BoundaryReflection => FacetCrossingReflection
    case TransitOffProcessor => FacetCrossingCommunication
  }

  /** Every defined adjacency event leaves a distinct trace in last_event. */
  lemma CrossingTallyInjective(e: MCSubfacetAdjacencyEvent, f: MCSubfacetAdjacencyEvent)
    requires e != AdjacencyUndefined && f != AdjacencyUndefined
    ensures CrossingTally(e) == CrossingTally(f) <==> e == f
  {
  }

  /** facet_crossing_event: a transit moves the particle to the adjacent
      location, a boundary event leaves it in place; in every case only the
      location and last_event change. */
  method FacetCrossingEvent(particle: MCParticle, adj: SubfacetAdjacency)
    returns (r: Result<MCParticle, CrossingError>)
    ensures adj.event == AdjacencyUndefined <==> r == Err(UndefinedAdjacency)
    ensures r == Err(MissingAdjacent) <==> adj.event.IsTransit() && !AdjacentDefined(adj)
    ensures r.Ok? <==> adj.event != AdjacencyUndefined && (adj.event.IsTransit() ==> AdjacentDefined(adj))
    ensures r.Ok? ==> particle.SameButPlace(r.value)
    ensures r.Ok? ==> r.value.lastEvent == CrossingTally(adj.event)
    ensures r.Ok? && adj.event.IsBoundary() ==> r.value.Location() == particle.Location()
    ensures r.Ok? && adj.event.IsTransit() ==>
      r.value.Location() == (adj.adjacent.domain.value, adj.adjacent.cell.value, adj.adjacent.facet.value)
  {
    var p := particle;
    match adj.event {
      case TransitOnProcessor =>
        if !AdjacentDefined(adj) {
          return Err(MissingAdjacent);
        }
        p := p.(domain := adj.adjacent.domain.value);
        p := p.(cell := adj.adjacent.cell.value);
        p := p.(facet := adj.adjacent.facet.value);
        p := p.(lastEvent := FacetCrossingTransitExit);
      case BoundaryEscape =>
        p := p.(lastEvent := FacetCrossingEscape);
      case BoundaryReflection =>
        p := p.(lastEvent := FacetCrossingReflection);
      case TransitOffProcessor =>
        if !AdjacentDefined(adj) {
          return Err(MissingAdjacent);
        }
        p := p.(domain := adj.adjacent.domain.value);
        p := p.(cell := adj.adjacent.cell.value);
        p := p.(facet := adj.adjacent.facet.value);
        p := p.(lastEvent := FacetCrossingCommunication);
      case AdjacencyUndefined =>
        return Err(UndefinedAdjacency);
    }
    return Ok(p);
  }

  /** Crossing a facet and then crossing its mirror adjacency (current and
      adjacent swapped, same event) brings a particle that started at the
      current location of the facet back to it: the two transits undo each
      other on the location. */
  method CrossBack(particle: MCParticle, adj: SubfacetAdjacency)
    returns (there: Result<MCParticle, CrossingError>, back: Result<MCParticle, CrossingError>)
    requires adj.event.IsTransit() && AdjacentDefined(adj)
    requires adj.current.domain == Some(particle.domain)
    requires adj.current.cell == Some(particle.cell)
    requires adj.current.facet == Some(particle.facet)
    ensures there.Ok? && back.Ok?
    ensures back.value.Location() == particle.Location()
    ensures particle.SameButPlace(back.value) && back.value.lastEvent == there.value.lastEvent
  {
    there := FacetCrossingEvent(particle, adj);
    var mirror := adj.(current := adj.adjacent, adjacent := adj.current);
    assert AdjacentDefined(mirror);
    back := FacetCrossingEvent(there.value, mirror);
  }
}
