// The distance bookkeeping of fastiron/src/simulation/mc_segment_outcome.rs:
// DistanceHandler keeps the distance to each possible event of a segment
// and the nearest one so far; `outcome` feeds it the collision, census and
// facet distances in that order and may force a collision. The distances
// themselves come from float physics and are inputs here.

module SegmentOutcome {
  /** The event that ends a segment. */
  datatype MCSegmentOutcome = Collision | FacetCrossing | Census

  /** HUGE_FLOAT and TINY_FLOAT of the f64 implementation. */
  const HUGE_FLOAT: real := 10.0e75
  const TINY_FLOAT: real := 1.0 / 10000000000000.0

  /** The fields of a DistanceHandler, as a value. */
  datatype Distances = Distances(
    collision: real,
    facetCrossing: real,
    census: real,
    minDist: real,
    outcome: MCSegmentOutcome)
  {
    /** The stored distance of one outcome. */
    function Of(which: MCSegmentOutcome): real
    {
      match which
      case Collision => collision
      case FacetCrossing => facetCrossing
      case Census => census
    }

    /** min_dist is never above a stored distance. */
    predicate Consistent()
    {
      minDist <= collision && minDist <= facetCrossing && minDist <= census
    }
  }

  /** DistanceHandler::default */
  const DEFAULT: Distances := Distances(HUGE_FLOAT, HUGE_FLOAT, HUGE_FLOAT, HUGE_FLOAT, Collision)

  /** update: store the distance of its outcome; take the outcome only on a
      strict decrease of the minimum. */
  function Step(s: Distances, which: MCSegmentOutcome, dist: real): Distances
  {
    var stored := match which
      case Collision => s.(collision := dist)
      case FacetCrossing => s.(facetCrossing := dist)
      case Census => s.(census := dist);
    if dist < s.minDist then stored.(minDist := dist, outcome := which) else stored
  }

  /** force_collision */
  const FORCED: Distances := Distances(TINY_FLOAT, HUGE_FLOAT, HUGE_FLOAT, TINY_FLOAT, Collision)

  /** One update: the distance is stored, the others are kept, and min_dist
      becomes the smaller of the old minimum and the new distance. */
  lemma StepStores(s: Distances, which: MCSegmentOutcome, dist: real, other: MCSegmentOutcome)
    ensures Step(s, which, dist).Of(which) == dist
    ensures other != which ==> Step(s, which, dist).Of(other) == s.Of(other)
    ensures Step(s, which, dist).minDist == if dist < s.minDist then dist else s.minDist
    ensures s.Consistent() ==> Step(s, which, dist).Consistent()
  {
  }

  type Update = (MCSegmentOutcome, real)

  /** A sequence of updates applied in order. */
  function Run(s: Distances, us: seq<Update>): Distances
  {
    if us == [] then s else Step(Run(s, us[..|us| - 1]), us[|us| - 1].0, us[|us| - 1].1)
  }

  /** After a run of updates, min_dist is the least of the starting minimum
      and all the distances given, and the outcome is the one of the EARLIEST
      update reaching that minimum (ties keep the earlier outcome); when no
      update went below the starting minimum the outcome is unchanged. */
  lemma {:induction false} RunPicksEarliestMinimum(s: Distances, us: seq<Update>)
    ensures Run(s, us).minDist <= s.minDist
    ensures forall k :: 0 <= k < |us| ==> Run(s, us).minDist <= us[k].1
    ensures Run(s, us).minDist == s.minDist ==> Run(s, us).outcome == s.outcome
    ensures Run(s, us).minDist != s.minDist ==>
      exists k :: 0 <= k < |us| && us[k].1 == Run(s, us).minDist && us[k].0 == Run(s, us).outcome &&
        forall j :: 0 <= j < k ==> us[j].1 > Run(s, us).minDist
  {
    if us != [] {
      var front := us[..|us| - 1];
      var last := us[|us| - 1];
      RunPicksEarliestMinimum(s, front);
      var r := Run(s, front);
      assert forall k :: 0 <= k < |front| ==> us[k] == front[k];
      if last.1 < r.minDist {
        var k := |us| - 1;
        assert us[k].1 == Run(s, us).minDist && us[k].0 == Run(s, us).outcome;
      } else if r.minDist != s.minDist {
        var k :| 0 <= k < |front| && front[k].1 == r.minDist && front[k].0 == r.outcome &&
          forall j :: 0 <= j < k ==> front[j].1 > r.minDist;
        assert us[k].1 == Run(s, us).minDist && us[k].0 == Run(s, us).outcome;
      }
    }
  }

  /** The three updates of `outcome`, in its order: collision, census, facet. */
  function OutcomeUpdates(dCollision: real, dCensus: real, dFacet: real): seq<Update>
  {
    [(Collision, dCollision), (Census, dCensus), (FacetCrossing, dFacet)]
  }

  /** DistanceHandler: the mutable record the tracking code updates. */
  class DistanceHandler {
    var collision: real
    var facetCrossing: real
    var census: real
    var minDist: real
    var outcome: MCSegmentOutcome

    function State(): Distances
      reads this
    {
      Distances(collision, facetCrossing, census, minDist, outcome)
    }

    /** DistanceHandler::default: every distance huge, outcome Collision. */
    constructor ()
      ensures State() == DEFAULT
      ensures State().Consistent()
    {
      collision := HUGE_FLOAT;
      facetCrossing := HUGE_FLOAT;
      census := HUGE_FLOAT;
      minDist := HUGE_FLOAT;
      outcome := Collision;
    }

    /** update */
    method Update(which: MCSegmentOutcome, dist: real)
      modifies this
      ensures State() == Step(old(State()), which, dist)
      ensures old(State()).Consistent() ==> State().Consistent()
    {
      match which {
        case Collision => collision := dist;
        case FacetCrossing => facetCrossing := dist;
        case Census => census := dist;
      }
      if dist < minDist {
        minDist := dist;
        outcome := which;
      }
    }

    /** force_collision: a tiny collision distance wins over huge others. */
    method ForceCollision()
      modifies this
      ensures State() == FORCED
      ensures State().Consistent() && outcome == Collision
    {
      collision := TINY_FLOAT;
      facetCrossing := HUGE_FLOAT;
      census := HUGE_FLOAT;
      minDist := TINY_FLOAT;
      outcome := Collision;
    }
  }

  /** The distance part of `outcome`: a fresh handler fed the collision,
      census and facet distances in that order, then forced to a collision
      when the particle's mean free path count was negative. Without forcing,
      the segment length is the least distance (capped by HUGE_FLOAT) and the
      outcome follows the priority collision, then census, then facet on ties. */
  method PickOutcome(dCollision: real, dCensus: real, dFacet: real, force: bool)
    returns (outcome: MCSegmentOutcome, minDist: real)
    ensures force ==> outcome == Collision && minDist == TINY_FLOAT
    ensures !force ==> minDist <= HUGE_FLOAT && minDist <= dCollision && minDist <= dCensus && minDist <= dFacet
    ensures !force ==> (minDist == HUGE_FLOAT || minDist == dCollision || minDist == dCensus || minDist == dFacet)
    ensures !force ==> (outcome == Census <==> dCensus < HUGE_FLOAT && dCensus < dCollision && dCensus <= dFacet)
    ensures !force ==> (outcome == FacetCrossing <==> dFacet < HUGE_FLOAT && dFacet < dCollision && dFacet < dCensus)
    ensures !force ==> outcome == Run(DEFAULT, OutcomeUpdates(dCollision, dCensus, dFacet)).outcome
    ensures !force ==> minDist == Run(DEFAULT, OutcomeUpdates(dCollision, dCensus, dFacet)).minDist
  {
    PickOutcomeIsRun(dCollision, dCensus, dFacet);
    var handler := new DistanceHandler();
    handler.Update(Collision, dCollision);
    handler.Update(Census, dCensus);
    handler.Update(FacetCrossing, dFacet);
    if force {
      handler.ForceCollision();
    }
    outcome := handler.outcome;
    minDist := handler.minDist;
  }

  /** The handler's result is the run of the three updates from the default. */
  lemma PickOutcomeIsRun(dCollision: real, dCensus: real, dFacet: real)
    ensures Run(DEFAULT, OutcomeUpdates(dCollision, dCensus, dFacet)) ==
      Step(Step(Step(DEFAULT, Collision, dCollision), Census, dCensus), FacetCrossing, dFacet)
  {
    var us := OutcomeUpdates(dCollision, dCensus, dFacet);
    var s1 := Step(DEFAULT, Collision, dCollision);
    var s2 := Step(s1, Census, dCensus);
    assert Run(DEFAULT, us[..1]) == s1 by {
      assert us[..1][..0] == [];
    }
    assert Run(DEFAULT, us[..2]) == s2 by {
      assert us[..2][..1] == us[..1];
    }
  }
}
