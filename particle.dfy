// The particle record of fastiron/src/particles/mc_particle.rs. Particles
// are owned values (Clone) that the tracking code updates through `&mut`;
// here they are immutable records and an update returns the new record.
// Floating-point fields are exact reals; the physics that changes them is
// not part of this model.

module Particle {
  import opened McVector
  import opened Tallies
  import RngState

  /** Species: Unknown (-1) marks a particle to be dropped, Known (0) a live one. */
  datatype Species = Unknown | Known

  datatype MCParticle = MCParticle(
    coordinate: MCVector,
    direction: MCVector,
    kineticEnergy: real,
    energyGroup: nat,
    weight: real,
    species: Species,
    timeToCensus: real,
    age: real,
    totalCrossSection: real,
    meanFreePath: real,
    segmentPathLength: real,
    numMeanFreePaths: real,
    numSegments: real,
    randomNumberSeed: RngState.u64,
    identifier: RngState.u64,
    lastEvent: MCTallyEvent,
    domain: nat,
    cell: nat,
    facet: nat,
    facetNormal: MCVector)
  {
    /** The location of the particle: (domain, cell, facet). */
    function Location(): (nat, nat, nat)
    {
      (domain, cell, facet)
    }

    /** The particle with every field but the location and the last event kept. */
    predicate SameButPlace(other: MCParticle)
    {
      this.(domain := other.domain, cell := other.cell, facet := other.facet,
            lastEvent := other.lastEvent) == other
    }
  }
}
