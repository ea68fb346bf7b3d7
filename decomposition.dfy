// Domain decomposition of fastiron/src/utils/decomposition_object.rs:
// domain d lives on rank d / dom_per_rank under local index
// d % dom_per_rank, and a rank owns the dom_per_rank consecutive domains
// starting at dom_per_rank * my_rank.

module Decomposition {
  import Arith

  /** The three vectors of DecompositionObject; they are never changed after construction. */
  datatype DecompositionObject = DecompositionObject(
    assignedGids: seq<nat>,
    rank: seq<nat>,
    index: seq<nat>)

  /** What DecompositionObject::new builds: one (rank, index) pair per domain,
      with dom_per_rank * rank + index recovering the domain, and the gids of
      the calling rank in increasing order. */
  ghost predicate Layout(o: DecompositionObject, myRank: nat, nRanks: nat, domPerRank: nat)
  {
    && |o.rank| == nRanks * domPerRank
    && |o.index| == nRanks * domPerRank
    && (forall d :: 0 <= d < |o.rank| ==>
          o.rank[d] < nRanks && o.index[d] < domPerRank && domPerRank * o.rank[d] + o.index[d] == d)
    && |o.assignedGids| == domPerRank
    && (forall ii :: 0 <= ii < |o.assignedGids| ==> o.assignedGids[ii] == domPerRank * myRank + ii)
  }

  /** DecompositionObject::new. The second loop reads rank[idx] with
      idx = dom_per_rank * my_rank + ii, which is out of range (a panic)
      unless my_rank < n_ranks or the loop is empty. */
  method New(myRank: nat, nRanks: nat, domPerRank: nat) returns (o: DecompositionObject)
    requires myRank < nRanks || domPerRank == 0
    ensures Layout(o, myRank, nRanks, domPerRank)
  {
    var nDomains := nRanks * domPerRank;
    var rank: seq<nat> := [];
    var index: seq<nat> := [];
    for domainIdx := 0 to nDomains
      invariant |rank| == domainIdx && |index| == domainIdx
      invariant forall d :: 0 <= d < domainIdx ==>
        rank[d] < nRanks && index[d] < domPerRank && domPerRank * rank[d] + index[d] == d
    {
      DomainSplit(domainIdx, nRanks, domPerRank);
      rank := rank + [domainIdx / domPerRank];
      index := index + [domainIdx % domPerRank];
    }
    var assignedGids: seq<nat> := [];
    for ii := 0 to domPerRank
      invariant |assignedGids| == ii
      invariant forall k :: 0 <= k < ii ==> assignedGids[k] == domPerRank * myRank + k
    {
      var idx := domPerRank * myRank + ii;
      OwnDomainInRange(myRank, nRanks, domPerRank, ii);
      assert domPerRank * rank[idx] + index[idx] == idx;
      assignedGids := assignedGids + [domPerRank * rank[idx] + index[idx]];
    }
    o := DecompositionObject(assignedGids, rank, index);
  }

  /** A domain below n_ranks * dom_per_rank splits into a rank below n_ranks
      and an index below dom_per_rank. */
  lemma DomainSplit(d: nat, nRanks: nat, domPerRank: nat)
    requires d < nRanks * domPerRank
    ensures domPerRank > 0 && d / domPerRank < nRanks && d % domPerRank < domPerRank
    ensures domPerRank * (d / domPerRank) + d % domPerRank == d
  {
    Arith.DivBelow(d, domPerRank, nRanks);
  }

  /** The ii-th domain of a rank below n_ranks is a domain. */
  lemma OwnDomainInRange(myRank: nat, nRanks: nat, domPerRank: nat, ii: nat)
    requires myRank < nRanks && ii < domPerRank
    ensures domPerRank * myRank + ii < nRanks * domPerRank
  {
    Arith.MulMono(domPerRank, myRank + 1, nRanks);
  }

  /** (rank, index) is a bijection between the domains and the pairs
      r < n_ranks, i < dom_per_rank: the pair of domain dom_per_rank * r + i is (r, i). */
  lemma RankIndexOfDomain(o: DecompositionObject, myRank: nat, nRanks: nat, domPerRank: nat, r: nat, i: nat)
    requires Layout(o, myRank, nRanks, domPerRank)
    requires r < nRanks && i < domPerRank
    ensures domPerRank * r + i < |o.rank|
    ensures o.rank[domPerRank * r + i] == r && o.index[domPerRank * r + i] == i
  {
    var d := domPerRank * r + i;
    Arith.MulMono(domPerRank, r + 1, nRanks);
    Arith.DivModUnique(d, domPerRank, r, i);
    Arith.DivModUnique(d, domPerRank, o.rank[d], o.index[d]);
  }

  /** The calling rank is assigned exactly the domains whose rank entry is its own. */
  lemma AssignedAreOwnDomains(o: DecompositionObject, myRank: nat, nRanks: nat, domPerRank: nat)
    requires Layout(o, myRank, nRanks, domPerRank)
    requires myRank < nRanks
    ensures forall d :: d in o.assignedGids <==> 0 <= d < |o.rank| && o.rank[d] == myRank
  {
    forall d | d in o.assignedGids
      ensures 0 <= d < |o.rank| && o.rank[d] == myRank
    {
      var ii :| 0 <= ii < |o.assignedGids| && o.assignedGids[ii] == d;
      RankIndexOfDomain(o, myRank, nRanks, domPerRank, myRank, ii);
    }
    forall d | 0 <= d < |o.rank| && o.rank[d] == myRank
      ensures d in o.assignedGids
    {
      var ii := o.index[d];
      assert o.assignedGids[ii] == d;
    }
  }
}
