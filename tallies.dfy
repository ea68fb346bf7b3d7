// Event counters and scalar-flux storage of fastiron/src/data/tallies.rs:
// the 14 balance counters indexed by TalliedEvent, their elementwise sum
// (the Add and Sum impls used to fold per-thread balances), the flat
// (cell, group) layout of the scalar flux and the end-of-cycle reset.

module Tallies {
  import Arith
  /** The last event a particle underwent (MCTallyEvent). */
  datatype MCTallyEvent =
    | Collision
    | FacetCrossingTransitExit
    | Census
    | FacetCrossingEscape
    | FacetCrossingReflection
    | FacetCrossingCommunication

  const N_TALLIED_EVENT: nat := 14

  /** The counted events, in the order of their discriminants. */
  datatype TalliedEvent =
    | Absorb | CensusCount | Escape | CollisionCount | End | Fission | Produce
    | Scatter | Start | Source | OverRr | WeightRr | Split | NumSegments

  /** `index as usize`: the discriminant of the event. */
  function Index(e: TalliedEvent): nat
  {
    match e
    case Absorb => 0
    case CensusCount => 1
    case Escape => 2
    case CollisionCount => 3
    case End => 4
    case Fission => 5
    case Produce => 6
    case Scatter => 7
    case Start => 8
    case Source => 9
    case OverRr => 10
    case WeightRr => 11
    case Split => 12
    case NumSegments => 13
  }

  /** The event of a discriminant. */
  function EventAt(i: nat): TalliedEvent
    requires i < N_TALLIED_EVENT
  {
    [Absorb, CensusCount, Escape, CollisionCount, End, Fission, Produce,
     Scatter, Start, Source, OverRr, WeightRr, Split, NumSegments][i]
  }

  /** The 14 events and the 14 slots of the counter array match one to one. */
  lemma IndexBijective(e: TalliedEvent, i: nat)
    requires i < N_TALLIED_EVENT
    ensures Index(e) < N_TALLIED_EVENT
    ensures EventAt(Index(e)) == e
    ensures Index(EventAt(i)) == i
  {
  }

  lemma IndexInjective(e: TalliedEvent, f: TalliedEvent)
    ensures Index(e) == Index(f) <==> e == f
  {
    IndexBijective(e, 0);
    IndexBijective(f, 0);
  }

  // ---- counter values ----

  /** A value of the counter array ([u64; N_TALLIED_EVENT]). */
  predicate IsCounts(s: seq<nat>)
  {
    |s| == N_TALLIED_EVENT
  }

  function Zero(): (z: seq<nat>)
    ensures IsCounts(z)
  {
    seq(N_TALLIED_EVENT, _ => 0)
  }

  /** `a + b` on balances: the counters added slot by slot. */
  function Add(a: seq<nat>, b: seq<nat>): (r: seq<nat>)
    requires |a| == |b|
    ensures |r| == |a|
  {
    seq(|a|, i requires 0 <= i < |a| => a[i] + b[i])
  }

  lemma AddCommutative(a: seq<nat>, b: seq<nat>)
    requires |a| == |b|
    ensures Add(a, b) == Add(b, a)
  {
  }

  lemma AddAssociative(a: seq<nat>, b: seq<nat>, c: seq<nat>)
    requires |a| == |b| == |c|
    ensures Add(Add(a, b), c) == Add(a, Add(b, c))
  {
  }

  /** The default balance is the neutral element of Add. */
  lemma AddZero(a: seq<nat>)
    requires IsCounts(a)
    ensures Add(Zero(), a) == a && Add(a, Zero()) == a
  {
  }

  /** `iter.sum()`: folds the balances into the default one, left to right. */
  function Sum(bs: seq<seq<nat>>): (r: seq<nat>)
    requires forall k :: 0 <= k < |bs| ==> IsCounts(bs[k])
    ensures IsCounts(r)
  {
    if bs == [] then Zero()
    else
      assert IsCounts(bs[|bs| - 1]);
      Add(Sum(bs[..|bs| - 1]), bs[|bs| - 1])
  }

  lemma SumEmpty()
    ensures Sum([]) == Zero()
  {
  }

  /** Summing two runs of balances and adding the results is summing them all:
      the per-chunk folds of the parallel tracking loop may be combined in any
      grouping. */
  lemma {:induction false} SumConcat(a: seq<seq<nat>>, b: seq<seq<nat>>)
    requires forall k :: 0 <= k < |a| ==> IsCounts(a[k])
    requires forall k :: 0 <= k < |b| ==> IsCounts(b[k])
    ensures forall k :: 0 <= k < |a + b| ==> IsCounts((a + b)[k])
    ensures Sum(a + b) == Add(Sum(a), Sum(b))
  {
    if b == [] {
      assert a + b == a;
      AddZero(Sum(a));
    } else {
      var b' := b[..|b| - 1];
      assert (a + b)[..|a + b| - 1] == a + b';
      assert (a + b)[|a + b| - 1] == b[|b| - 1];
      SumConcat(a, b');
      AddAssociative(Sum(a), Sum(b'), b[|b| - 1]);
    }
  }

  /** Counter k of a sum is the sum of the counters k. */
  function SumAt(bs: seq<seq<nat>>, k: nat): nat
    requires forall j :: 0 <= j < |bs| ==> IsCounts(bs[j])
    requires k < N_TALLIED_EVENT
  {
    if bs == [] then 0
    else
      assert IsCounts(bs[|bs| - 1]);
      SumAt(bs[..|bs| - 1], k) + bs[|bs| - 1][k]
  }

  lemma {:induction false} SumIsSlotwise(bs: seq<seq<nat>>, k: nat)
    requires forall j :: 0 <= j < |bs| ==> IsCounts(bs[j])
    requires k < N_TALLIED_EVENT
    ensures Sum(bs)[k] == SumAt(bs, k)
  {
    if bs != [] {
      SumIsSlotwise(bs[..|bs| - 1], k);
    }
  }

  // ---- the Balance record ----

  /** Balance: the event counters of a cycle. */
  class Balance {
    var data: array<nat>

    ghost predicate Valid()
      reads this
    {
      data.Length == N_TALLIED_EVENT
    }

    /** Balance::default(): every counter is 0. */
    constructor ()
      ensures Valid() && fresh(data) && data[..] == Zero()
    {
      data := new nat[N_TALLIED_EVENT](_ => 0);
    }

    /** `balance[e]` */
    function Get(e: TalliedEvent): nat
      reads this, data
      requires Valid()
    {
      data[Index(e)]
    }

    /** `balance[e] = v`: one counter changes, the others keep their value. */
    method Set(e: TalliedEvent, v: nat)
      requires Valid()
      modifies data
      ensures data[..] == old(data[..])[Index(e) := v]
      ensures Get(e) == v
      ensures forall f :: f != e ==> Get(f) == old(Get(f))
    {
      data[Index(e)] := v;
      forall f | f != e
        ensures Get(f) == old(Get(f))
      {
        IndexInjective(e, f);
      }
    }

    /** reset: fills the counters with 0. */
    method Reset()
      requires Valid()
      modifies data
      ensures data[..] == Zero()
    {
      var i := 0;
      while i < data.Length
        invariant 0 <= i <= data.Length
        invariant forall k :: 0 <= k < i ==> data[k] == 0
      {
        data[i] := 0;
        i := i + 1;
      }
    }

    /** add_to_self: adds the counters of bal to its own, slot by slot. */
    method AddToSelf(bal: Balance)
      requires Valid() && bal.Valid() && bal.data != data
      modifies data
      ensures data[..] == Add(old(data[..]), bal.data[..])
      ensures bal.data[..] == old(bal.data[..])
    {
      var i := 0;
      while i < data.Length
        invariant 0 <= i <= data.Length
        invariant forall k :: 0 <= k < i ==> data[k] == old(data[k]) + bal.data[k]
        invariant forall k :: i <= k < data.Length ==> data[k] == old(data[k])
      {
        data[i] := data[i] + bal.data[i];
        i := i + 1;
      }
    }
  }

  // ---- scalar flux ----

  /** ScalarFluxDomain: one value per (cell, energy group), stored cell-major. */
  class ScalarFluxDomain {
    var numGroups: nat
    var cell: array<real>

    /** ScalarFluxDomain::new: n_cells * num_groups zero values. */
    constructor (nCells: nat, numGroups: nat)
      ensures this.numGroups == numGroups && fresh(cell)
      ensures cell.Length == nCells * numGroups
      ensures forall k :: 0 <= k < cell.Length ==> cell[k] == 0.0
    {
      this.numGroups := numGroups;
      cell := new real[nCells * numGroups](_ => 0.0);
    }

    /** The flat position of (cell, group): `index.0 * num_groups + index.1`. */
    function Flat(c: nat, g: nat): nat
      reads this
    {
      c * numGroups + g
    }

    /** `self[(c, g)]` */
    function At(c: nat, g: nat): real
      reads this, cell
      requires Flat(c, g) < cell.Length
    {
      cell[Flat(c, g)]
    }

    /** reset: every value back to 0. */
    method Reset()
      modifies cell
      ensures forall k :: 0 <= k < cell.Length ==> cell[k] == 0.0
    {
      var i := 0;
      while i < cell.Length
        invariant 0 <= i <= cell.Length
        invariant forall k :: 0 <= k < i ==> cell[k] == 0.0
      {
        cell[i] := 0.0;
        i := i + 1;
      }
    }
  }

  /** Within the n_cells x num_groups range the flat position is a bijection:
      every pair lands inside the storage, and the pair can be read back. */
  lemma FlatIndexRoundTrip(nCells: nat, numGroups: nat, c: nat, g: nat)
    requires c < nCells && g < numGroups
    ensures c * numGroups + g < nCells * numGroups
    ensures (c * numGroups + g) / numGroups == c && (c * numGroups + g) % numGroups == g
  {
    Arith.MixedRadix(g, c, numGroups, nCells);
    assert numGroups * c == c * numGroups;
    assert numGroups * nCells == nCells * numGroups;
  }

  /** Every flat position below n_cells * num_groups is some in-range pair. */
  lemma FlatIndexOnto(nCells: nat, numGroups: nat, k: nat)
    requires k < nCells * numGroups
    ensures numGroups > 0 && k / numGroups < nCells && k % numGroups < numGroups
    ensures (k / numGroups) * numGroups + k % numGroups == k
  {
    assert numGroups > 0;
    Arith.DivBelow(k, numGroups, nCells);
    assert nCells * numGroups == numGroups * nCells;
  }

  /** Tallies: the balance of the current cycle and the scalar flux. */
  class Tallies {
    var balanceCycle: Balance
    var scalarFluxDomain: ScalarFluxDomain

    ghost predicate Valid()
      reads this, balanceCycle
    {
      balanceCycle.Valid()
    }

    constructor ()
      ensures Valid() && fresh(balanceCycle) && fresh(balanceCycle.data)
      ensures balanceCycle.data[..] == Zero()
      ensures fresh(scalarFluxDomain) && scalarFluxDomain.cell.Length == 0
    {
      balanceCycle := new Balance();
      scalarFluxDomain := new ScalarFluxDomain(0, 0);
    }

    /** initialize_tallies: a fresh zero flux of n_cells x num_groups values. */
    method InitializeTallies(nCells: nat, numEnergyGroups: nat)
      modifies this
      ensures balanceCycle == old(balanceCycle)
      ensures fresh(scalarFluxDomain) && scalarFluxDomain.numGroups == numEnergyGroups
      ensures scalarFluxDomain.cell.Length == nCells * numEnergyGroups
      ensures forall k :: 0 <= k < scalarFluxDomain.cell.Length ==> scalarFluxDomain.cell[k] == 0.0
    {
      scalarFluxDomain := new ScalarFluxDomain(nCells, numEnergyGroups);
    }

    /** cycle_finalize: the particles at the end of this cycle are the start of
        the next; every other counter and the whole flux go back to 0. */
    method CycleFinalize()
      requires Valid()
      modifies balanceCycle.data, scalarFluxDomain.cell
      ensures Valid()
      ensures balanceCycle.Get(Start) == old(balanceCycle.Get(End))
      ensures forall e :: e != Start ==> balanceCycle.Get(e) == 0
      ensures balanceCycle.data[..] == Zero()[Index(Start) := old(balanceCycle.data[Index(End)])]
      ensures forall k :: 0 <= k < scalarFluxDomain.cell.Length ==> scalarFluxDomain.cell[k] == 0.0
    {
      var newStart := balanceCycle.Get(End);
      balanceCycle.Reset();
      balanceCycle.Set(Start, newStart);
      scalarFluxDomain.Reset();
    }
  }
}
