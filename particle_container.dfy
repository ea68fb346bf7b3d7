// The particle lists of fastiron/src/particles/particle_container.rs: the
// particles still to track, those already tracked and the extra ones
// (fission products, split particles). The random decisions of the
// population control (russian roulette, splitting) depend on the particles'
// random streams and are parameters here; the tracking of a particle is not
// part of this model.

module ParticleContainer {
  import opened Particle
  import opened Tallies

  // ---- ordering by place ----

  /** sort_processing's order: by cell, then by energy group. */
  predicate PlaceLe(a: MCParticle, b: MCParticle)
  {
    a.cell < b.cell || (a.cell == b.cell && a.energyGroup <= b.energyGroup)
  }

  predicate SortedByPlace(ps: seq<MCParticle>)
  {
    forall i, j :: 0 <= i < j < |ps| ==> PlaceLe(ps[i], ps[j])
  }

  /** Inserts a particle in front of the first one it does not follow. */
  function Insert(p: MCParticle, ps: seq<MCParticle>): (r: seq<MCParticle>)
    requires SortedByPlace(ps)
    ensures SortedByPlace(r)
    ensures multiset(r) == multiset(ps) + multiset{p}
    ensures forall x :: x in r ==> x == p || x in ps
  {
    if ps == [] || PlaceLe(p, ps[0]) then [p] + ps
    else
      var rest := Insert(p, ps[1..]);
      assert forall x :: x in rest ==> PlaceLe(ps[0], x);
      assert ps == [ps[0]] + ps[1..];
      [ps[0]] + rest
  }

  /** The particles in sort_processing's order: sorted by place and a
      permutation of the input. */
  function SortByPlace(ps: seq<MCParticle>): (r: seq<MCParticle>)
    ensures SortedByPlace(r)
    ensures multiset(r) == multiset(ps)
  {
    if ps == [] then []
    else
      assert ps == [ps[0]] + ps[1..];
      Insert(ps[0], SortByPlace(ps[1..]))
  }

  // ---- retention ----

  /** A decision of retain_mut: the updated particle and whether it stays. */
  type Decide = MCParticle -> (MCParticle, bool)

  /** The number of particles a decision removes. */
  function Rejected(ps: seq<MCParticle>, decide: Decide): (n: nat)
    ensures n <= |ps|
  {
    if ps == [] then 0
    else Rejected(ps[..|ps| - 1], decide) + (if decide(ps[|ps| - 1]).1 then 0 else 1)
  }

  /** retain_mut: every particle is updated by the decision and kept, in
      order, when the decision says so. */
  function Retained(ps: seq<MCParticle>, decide: Decide): (r: seq<MCParticle>)
    ensures |r| + Rejected(ps, decide) == |ps|
    ensures forall x :: x in r ==> exists p :: p in ps && decide(p) == (x, true)
  {
    if ps == [] then []
    else
      var last := ps[|ps| - 1];
      var front := Retained(ps[..|ps| - 1], decide);
      assert forall p :: p in ps[..|ps| - 1] ==> p in ps;
      front + (if decide(last).1 then [decide(last).0] else [])
  }

  /** Every particle the decision keeps is in the result. */
  lemma {:induction false} RetainedKeepsSurvivors(ps: seq<MCParticle>, decide: Decide, p: MCParticle)
    requires p in ps && decide(p).1
    ensures decide(p).0 in Retained(ps, decide)
  {
    var front := ps[..|ps| - 1];
    if p != ps[|ps| - 1] {
      assert ps == front + [ps[|ps| - 1]];
      assert p in front;
      RetainedKeepsSurvivors(front, decide, p);
    }
  }

  /** The particles whose species is known, in order. */
  function KnownOf(ps: seq<MCParticle>): (r: seq<MCParticle>)
    ensures forall x :: multiset(r)[x] == if x.species == Known then multiset(ps)[x] else 0
  {
    if ps == [] then []
    else
      var front := ps[..|ps| - 1];
      assert ps == front + [ps[|ps| - 1]];
      KnownOf(front) + (if ps[|ps| - 1].species == Known then [ps[|ps| - 1]] else [])
  }

  // ---- splitting ----

  /** A split: the updated particle and the particles split off it. */
  type Split = MCParticle -> (MCParticle, seq<MCParticle>)

  /** The particles after their split, in order. */
  function SplitParents(ps: seq<MCParticle>, split: Split): (r: seq<MCParticle>)
    ensures |r| == |ps|
    ensures forall i :: 0 <= i < |ps| ==> r[i] == split(ps[i]).0
  {
    if ps == [] then [] else SplitParents(ps[..|ps| - 1], split) + [split(ps[|ps| - 1]).0]
  }

  /** The particles split off, in the order of their parents. */
  function SplitChildren(ps: seq<MCParticle>, split: Split): seq<MCParticle>
  {
    if ps == [] then [] else SplitChildren(ps[..|ps| - 1], split) + split(ps[|ps| - 1]).1
  }

  /** What split_population hands to the low-weight roulette: the split
      particles, then the extra particles, then the offspring. */
  function SplitPool(ps: seq<MCParticle>, extra: seq<MCParticle>, split: Split): seq<MCParticle>
  {
    SplitParents(ps, split) + extra + SplitChildren(ps, split)
  }

  /** ParticleContainer: the three particle lists. */
  class ParticleContainer {
    var processingParticles: seq<MCParticle>
    var processedParticles: seq<MCParticle>
    var extraParticles: seq<MCParticle>

    /** new: three empty lists (their capacities are not modelled). */
    constructor (regularCapacity: nat, extraCapacity: nat)
      ensures processingParticles == [] && processedParticles == [] && extraParticles == []
    {
      processingParticles := [];
      processedParticles := [];
      extraParticles := [];
    }

    /** All the particles the container holds. */
    function All(): seq<MCParticle>
      reads this
    {
      processingParticles + processedParticles + extraParticles
    }

    /** swap_processing_processed: the processed particles go to the end of
        the processing list, which leaves the processed list empty. */
    method SwapProcessingProcessed()
      modifies this
      ensures processingParticles == old(processingParticles) + old(processedParticles)
      ensures processedParticles == [] && extraParticles == old(extraParticles)
      ensures multiset(All()) == old(multiset(All()))
    {
      processingParticles := processingParticles + processedParticles;
      processedParticles := [];
    }

    /** regulate_population: each processing particle plays the two
        roulettes (both are always played) and stays when it survives both;
        the OverRr counter becomes the number of particles removed. */
    method RegulatePopulation(survive: Decide, balance: Balance)
      requires balance.Valid()
      modifies this, balance.data
      ensures processingParticles == Retained(old(processingParticles), survive)
      ensures processedParticles == old(processedParticles) && extraParticles == old(extraParticles)
      ensures balance.Get(TalliedEvent.OverRr) == Rejected(old(processingParticles), survive)
      ensures balance.Get(TalliedEvent.OverRr) == |old(processingParticles)| - |processingParticles|
      ensures forall e :: e != TalliedEvent.OverRr ==> balance.Get(e) == old(balance.Get(e))
    {
      var oldLen := |processingParticles|;
      processingParticles := Retained(processingParticles, survive);
      balance.Set(TalliedEvent.OverRr, oldLen - |processingParticles|);
    }

    /** split_population: every processing particle is split and its
        offspring join the extra particles, which then all go to the end of
        the processing list (Split counts the particles added that way);
        then the low-weight roulette removes particles (WeightRr counts
        them). */
    method SplitPopulation(split: Split, lowWeight: Decide, balance: Balance)
      requires balance.Valid()
      modifies this, balance.data
      ensures processingParticles == Retained(SplitPool(old(processingParticles), old(extraParticles), split), lowWeight)
      ensures extraParticles == [] && processedParticles == old(processedParticles)
      ensures balance.Get(TalliedEvent.Split) == |old(extraParticles)| + |SplitChildren(old(processingParticles), split)|
      ensures balance.Get(TalliedEvent.WeightRr) ==
        Rejected(SplitPool(old(processingParticles), old(extraParticles), split), lowWeight)
      ensures forall e :: e != TalliedEvent.Split && e != TalliedEvent.WeightRr ==> balance.Get(e) == old(balance.Get(e))
    {
      ghost var pool := SplitPool(processingParticles, extraParticles, split);
      ghost var nExtra := |extraParticles|;
      var parents, children := SplitEach(processingParticles, split);
      processingParticles := parents;
      extraParticles := extraParticles + children;
      var oldLen := |processingParticles|;
      CleanExtraVaults();
      assert processingParticles == pool;
      var added := |processingParticles| - oldLen;
      assert added == nExtra + |children|;
      var kept := Retained(processingParticles, lowWeight);
      var removed := |processingParticles| - |kept|;
      processingParticles := kept;
      balance.Set(TalliedEvent.Split, added);
      balance.Set(TalliedEvent.WeightRr, removed);
    }

    /** The end of process_particles: the particles left unknown by the
        tracking are dropped and the others go to the end of the processed
        list, which leaves the processing list empty. */
    method FinishProcessing()
      modifies this
      ensures processingParticles == [] && extraParticles == old(extraParticles)
      ensures processedParticles == old(processedParticles) + KnownOf(old(processingParticles))
      ensures IsDoneProcessing() <==> extraParticles == []
    {
      processedParticles := processedParticles + KnownOf(processingParticles);
      processingParticles := [];
    }

    /** sort_processing: the processing particles, reordered by place. */
    method SortProcessing()
      modifies this
      ensures processingParticles == SortByPlace(old(processingParticles))
      ensures SortedByPlace(processingParticles)
      ensures multiset(processingParticles) == multiset(old(processingParticles))
      ensures processedParticles == old(processedParticles) && extraParticles == old(extraParticles)
    {
      processingParticles := SortByPlace(processingParticles);
    }

    /** clean_extra_vaults: the extra particles go to the end of the
        processing list and the extra list is left empty; no particle is
        lost (CleanExtraKeepsParticles). */
    method CleanExtraVaults()
      modifies this
      ensures processingParticles == old(processingParticles) + old(extraParticles)
      ensures extraParticles == [] && processedParticles == old(processedParticles)
    {
      processingParticles := processingParticles + extraParticles;
      extraParticles := [];
    }

    /** is_done_processing: no particle is left to track, neither in the
        processing list nor among the extra particles. */
    function IsDoneProcessing(): (r: bool)
      reads this
      ensures r <==> |processingParticles| + |extraParticles| == 0
    {
      extraParticles == [] && processingParticles == []
    }
  }

  /** What clean_extra_vaults leaves (processing ++ extra, processed, no
      extra) holds the same particles as before. */
  lemma CleanExtraKeepsParticles(processing: seq<MCParticle>, processed: seq<MCParticle>, extra: seq<MCParticle>)
    ensures multiset((processing + extra) + processed + []) == multiset(processing + processed + extra)
  {
  }

  /** The loop of split_population over the processing particles: each is
      replaced by its split version and its offspring are collected. */
  method SplitEach(ps: seq<MCParticle>, split: Split) returns (parents: seq<MCParticle>, children: seq<MCParticle>)
    ensures parents == SplitParents(ps, split)
    ensures children == SplitChildren(ps, split)
  {
    parents := [];
    children := [];
    var i := 0;
    while i < |ps|
      invariant 0 <= i <= |ps|
      invariant parents == SplitParents(ps[..i], split)
      invariant children == SplitChildren(ps[..i], split)
    {
      var (parent, offspring) := split(ps[i]);
      SplitStep(ps, split, i);
      parents := parents + [parent];
      children := children + offspring;
      i := i + 1;
    }
    assert ps[..i] == ps;
  }

  /** One step of the split loop: the prefix grows by one split particle
      and its offspring. */
  lemma SplitStep(ps: seq<MCParticle>, split: Split, i: nat)
    requires i < |ps|
    ensures SplitParents(ps[..i + 1], split) == SplitParents(ps[..i], split) + [split(ps[i]).0]
    ensures SplitChildren(ps[..i + 1], split) == SplitChildren(ps[..i], split) + split(ps[i]).1
  {
    assert ps[..i + 1][..i] == ps[..i];
  }
}
