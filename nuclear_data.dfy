// Energy groups and isotope tables of fastiron/src/data/nuclear_data.rs:
// the energy grid of NuclearData::new, the group search of
// get_energy_groups, the reaction layout of add_isotope and the degree-4
// polynomials that describe cross sections. Floats are exact reals; the
// logarithm and exponential of the grid are parameters, and the per-group
// cross-section values computed by NuclearDataReaction::new are not part
// of this model (a reaction keeps the inputs of that computation).

module NuclearData {
  import opened Wrappers
  import opened Parameters

  /** The kind of a reaction. */
  datatype ReactionType = Scatter | Absorption | Fission

  /** A degree-4 polynomial: aa is the leading coefficient, ee the constant. */
  datatype Polynomial = Polynomial(aa: real, bb: real, cc: real, dd: real, ee: real)
  {
    /** Polynomial::val, in Horner form. */
    function Val(x: real): real
    {
      ee + x * (dd + x * (cc + x * (bb + x * aa)))
    }
  }

  /** Horner's form is the expanded polynomial. */
  lemma PolynomialExpanded(p: Polynomial, x: real)
    ensures p.Val(x) == p.aa * (x * x * x * x) + p.bb * (x * x * x) + p.cc * (x * x) + p.dd * x + p.ee
  {
    var x2 := x * x;
    var x3 := x2 * x;
    assert x * (p.bb + x * p.aa) == p.bb * x + p.aa * x2;
    assert x * (p.cc + p.bb * x + p.aa * x2) == p.cc * x + p.bb * x2 + p.aa * x3;
    assert x * (p.dd + p.cc * x + p.bb * x2 + p.aa * x3) == p.dd * x + p.cc * x2 + p.bb * x3 + p.aa * (x3 * x);
  }

  /** A reaction as added by add_reaction: its type, nu bar, the polynomial
      of its cross section and the reaction cross section it is scaled to
      (None where the float division gives no finite value). */
  datatype Reaction = Reaction(
    reactionType: ReactionType,
    nuBar: real,
    polynomial: Polynomial,
    reactionCrossSection: Option<real>)

  /** One species: its list of reactions. */
  type Species = seq<Reaction>

  /** One isotope: its species (only one kind of particle exists). */
  type Isotope = seq<Species>

  // ---- the energy grid ----

  /** The interior levels of NuclearData::new: log-spaced between low and
      high, with a step of (ln high - ln low) / (numGroups + 1). */
  function GridLevel(low: real, high: real, numGroups: nat, ln: real -> real, exp: real -> real, i: nat): real
  {
    exp(ln(low) + (ln(high) - ln(low)) / (numGroups + 1) as real * i as real)
  }

  /** The energies are nondecreasing. */
  predicate Nondecreasing(e: seq<real>)
  {
    forall i, j :: 0 <= i <= j < |e| ==> e[i] <= e[j]
  }

  predicate StrictlyIncreasing(e: seq<real>)
  {
    forall i, j :: 0 <= i < j < |e| ==> e[i] < e[j]
  }

  /** With a monotone logarithm and exponential that invert each other,
      a grid from low to high (low < high) is strictly increasing. */
  lemma {:induction false} GridIncreasing(e: seq<real>, low: real, high: real, numGroups: nat,
                                          ln: real -> real, exp: real -> real)
    requires |e| == numGroups + 1 && e[0] == low && e[numGroups] == high && numGroups > 0
    requires forall i :: 1 <= i < numGroups ==> e[i] == GridLevel(low, high, numGroups, ln, exp, i)
    requires low < high
    requires forall x, y :: x < y ==> ln(x) < ln(y)
    requires forall x, y :: x < y ==> exp(x) < exp(y)
    requires exp(ln(low)) == low && exp(ln(high)) == high
    ensures StrictlyIncreasing(e)
  {
    var delta := (ln(high) - ln(low)) / (numGroups + 1) as real;
    assert delta > 0.0;
    forall i | 0 <= i < numGroups
      ensures e[i] < e[i + 1]
    {
      var a := delta * i as real;
      var b := delta * (i + 1) as real;
      assert a < b;
      if i + 1 < numGroups {
        assert ln(low) + a < ln(low) + b;
      } else {
        assert delta * numGroups as real < delta * (numGroups + 1) as real;
        assert delta * (numGroups + 1) as real == ln(high) - ln(low);
        assert ln(low) + a < ln(high);
      }
    }
    StepsIncreasing(e);
  }

  /** Increasing from each entry to the next is increasing. */
  lemma {:induction false} StepsIncreasing(e: seq<real>)
    requires forall i :: 0 <= i < |e| - 1 ==> e[i] < e[i + 1]
    ensures StrictlyIncreasing(e)
  {
    if |e| > 1 {
      var front := e[..|e| - 1];
      StepsIncreasing(front);
      forall i, j | 0 <= i < j < |e|
        ensures e[i] < e[j]
      {
        if j < |e| - 1 {
          assert front[i] < front[j];
        } else if i < |e| - 2 {
          assert front[i] < front[|e| - 2];
        }
      }
    }
  }

  // ---- the group search ----

  /** The group of an energy inside the grid, found by a linear scan from
      group i: the first group whose upper bound is above the energy, or
      the last group. */
  function LinearGroup(e: seq<real>, energy: real, i: nat): nat
    requires i < |e| - 1
    decreases |e| - i
  {
    if i + 2 == |e| || energy < e[i + 1] then i else LinearGroup(e, energy, i + 1)
  }

  /** The group of an energy: 0 at or below the grid, the number of energies
      minus one above it, the linear scan's group inside it. */
  function EnergyGroup(e: seq<real>, energy: real): nat
    requires |e| > 0
  {
    if energy <= e[0] then 0
    else if energy > e[|e| - 1] then |e| - 1
    else LinearGroup(e, energy, 0)
  }

  /** On a nondecreasing grid, a group bracketing the energy is the linear
      scan's group. */
  lemma {:induction false} BracketIsLinearGroup(e: seq<real>, energy: real, r: nat, i: nat)
    requires Nondecreasing(e) && i <= r < |e| - 1
    requires e[r] <= energy && (energy < e[r + 1] || r + 2 == |e|)
    ensures LinearGroup(e, energy, i) == r
    decreases r - i
  {
    if i < r {
      assert e[i + 1] <= e[r];
      BracketIsLinearGroup(e, energy, r, i + 1);
    }
  }

  /** The linear scan's group brackets the energy. */
  lemma {:induction false} LinearGroupBrackets(e: seq<real>, energy: real, i: nat)
    requires i < |e| - 1 && e[i] <= energy
    ensures i <= LinearGroup(e, energy, i) < |e| - 1
    ensures e[LinearGroup(e, energy, i)] <= energy
    ensures energy < e[LinearGroup(e, energy, i) + 1] || LinearGroup(e, energy, i) + 2 == |e|
    decreases |e| - i
  {
    if !(i + 2 == |e| || energy < e[i + 1]) {
      LinearGroupBrackets(e, energy, i + 1);
    }
  }

  // ---- reactions of an isotope ----

  /** The reaction type of reaction ii: Scatter, Fission, Absorption in turn. */
  function ReactionTypeAt(ii: nat): ReactionType
  {
    if ii % 3 == 0 then Scatter else if ii % 3 == 1 then Fission else Absorption
  }

  /** How many of n reactions have each type: n / 3 each, the remainder
      going to scattering first, then to fission. */
  function ReactionCount(n: nat, t: ReactionType): nat
  {
    match t
    case Scatter => n / 3 + (if n % 3 >= 1 then 1 else 0)
    case Fission => n / 3 + (if n % 3 == 2 then 1 else 0)
    case Absorption => n / 3
  }

  /** The number of reactions of a type in a list. */
  function CountType(rs: seq<Reaction>, t: ReactionType): nat
  {
    if rs == [] then 0
    else CountType(rs[..|rs| - 1], t) + (if rs[|rs| - 1].reactionType == t then 1 else 0)
  }

  /** The counts add up to n. */
  lemma ReactionCountsAddUp(n: nat)
    ensures ReactionCount(n, Scatter) + ReactionCount(n, Fission) + ReactionCount(n, Absorption) == n
  {
  }

  /** In a list whose reaction ii has type ReactionTypeAt(ii), the number of
      reactions of each type is ReactionCount: the rule of add_isotope puts
      as many reactions of each type as it divided the cross section by. */
  lemma {:induction false} CountTypeRoundRobin(rs: seq<Reaction>, t: ReactionType)
    requires forall ii :: 0 <= ii < |rs| ==> rs[ii].reactionType == ReactionTypeAt(ii)
    ensures CountType(rs, t) == ReactionCount(|rs|, t)
  {
    if rs != [] {
      var n := |rs| - 1;
      CountTypeRoundRobin(rs[..n], t);
      assert n / 3 == (n + 1) / 3 || (n + 1) % 3 == 0;
      if (n + 1) % 3 == 0 {
        assert (n + 1) / 3 == n / 3 + 1;
        assert n % 3 == 2;
      }
    }
  }

  /** The cross section of each reaction of one type: the total cross
      section, weighted by the type's share of the total weight, divided
      among the reactions of that type. None stands for a division by zero,
      which gives no finite float. */
  function Share(total: real, weight: real, count: nat, totalWeight: real): Option<real>
  {
    if count == 0 || totalWeight == 0.0 then None
    else Some(total * weight / (count as real * totalWeight))
  }

  /** The reaction cross sections of the types are the total, split by
      weight: with at least three reactions, count times share adds up to
      the total cross section. */
  lemma SharesAddUp(total: real, ws: real, wf: real, wa: real, n: nat)
    requires n >= 3 && ws + wf + wa != 0.0
    ensures Share(total, ws, ReactionCount(n, Scatter), ws + wf + wa).Some?
    ensures Share(total, wf, ReactionCount(n, Fission), ws + wf + wa).Some?
    ensures Share(total, wa, ReactionCount(n, Absorption), ws + wf + wa).Some?
    ensures ReactionCount(n, Scatter) as real * Share(total, ws, ReactionCount(n, Scatter), ws + wf + wa).value +
            ReactionCount(n, Fission) as real * Share(total, wf, ReactionCount(n, Fission), ws + wf + wa).value +
            ReactionCount(n, Absorption) as real * Share(total, wa, ReactionCount(n, Absorption), ws + wf + wa).value
            == total
  {
    var tw := ws + wf + wa;
    ShareTimesCount(total, ws, ReactionCount(n, Scatter), tw);
    ShareTimesCount(total, wf, ReactionCount(n, Fission), tw);
    ShareTimesCount(total, wa, ReactionCount(n, Absorption), tw);
    FractionsAdd(total * ws, total * wf, tw);
    FractionsAdd(total * ws + total * wf, total * wa, tw);
    assert total * ws + total * wf + total * wa == total * tw;
  }

  lemma FractionsAdd(a: real, b: real, d: real)
    requires d != 0.0
    ensures a / d + b / d == (a + b) / d
  {
  }

  lemma ShareTimesCount(total: real, w: real, count: nat, tw: real)
    requires count > 0 && tw != 0.0
    ensures Share(total, w, count, tw).Some?
    ensures count as real * Share(total, w, count, tw).value == total * w / tw
  {
    var c := count as real;
    var x := total * w;
    assert x / (c * tw) == (x / tw) / c;
    assert c * ((x / tw) / c) == x / tw;
  }

  /** The reaction list add_isotope builds for a material: reaction ii has
      type ReactionTypeAt(ii) and the polynomial and share of its type. */
  predicate IsReactionList(rs: seq<Reaction>, mp: MaterialParameters, nuBar: real,
                           scatter: Polynomial, fission: Polynomial, absorption: Polynomial)
  {
    var tw := mp.fissionCrossSectionRatio + mp.scatteringCrossSectionRatio + mp.absorbtionCrossSectionRatio;
    var n := mp.nReactions;
    |rs| == n &&
    forall ii :: 0 <= ii < n ==>
      rs[ii].reactionType == ReactionTypeAt(ii) && rs[ii].nuBar == nuBar &&
      rs[ii].polynomial == (match ReactionTypeAt(ii)
        case Scatter => scatter
        case Fission => fission
        case Absorption => absorption) &&
      rs[ii].reactionCrossSection == (match ReactionTypeAt(ii)
        case Scatter => Share(mp.totalCrossSection, mp.scatteringCrossSectionRatio, ReactionCount(n, Scatter), tw)
        case Fission => Share(mp.totalCrossSection, mp.fissionCrossSectionRatio, ReactionCount(n, Fission), tw)
        case Absorption => Share(mp.totalCrossSection, mp.absorbtionCrossSectionRatio, ReactionCount(n, Absorption), tw))
  }

  /** Every reaction that is built has a type with a nonzero count, so its
      cross section is finite as soon as the weights do not add up to 0. */
  lemma ReactionSharesDefined(rs: seq<Reaction>, mp: MaterialParameters, nuBar: real,
                              scatter: Polynomial, fission: Polynomial, absorption: Polynomial, ii: nat)
    requires IsReactionList(rs, mp, nuBar, scatter, fission, absorption) && ii < |rs|
    requires mp.fissionCrossSectionRatio + mp.scatteringCrossSectionRatio + mp.absorbtionCrossSectionRatio != 0.0
    ensures rs[ii].reactionCrossSection.Some?
  {
    var n := mp.nReactions;
    assert ReactionCount(n, ReactionTypeAt(ii)) > 0 by {
      if ii % 3 == 1 {
        assert n % 3 == 2 || n >= 3;
      } else if ii % 3 == 2 {
        assert n >= 3;
      }
    }
  }

  /** NuclearData: the energy grid and the isotopes added so far. */
  class NuclearData {
    var numEnergyGroups: nat
    var isotopes: seq<Isotope>
    var energies: seq<real>

    /** NuclearData::new: numGroups + 1 energies from low to high, the
        interior ones log-spaced. With no group, the single energy is high
        (the write of high replaces the write of low). */
    constructor (numGroups: nat, low: real, high: real, ln: real -> real, exp: real -> real)
      ensures numEnergyGroups == numGroups && isotopes == []
      ensures |energies| == numGroups + 1
      ensures energies[numGroups] == high
      ensures numGroups > 0 ==> energies[0] == low
      ensures forall i :: 1 <= i < numGroups ==> energies[i] == GridLevel(low, high, numGroups, ln, exp, i)
    {
      var levels := new real[numGroups + 1](_ => 0.0);
      levels[0] := low;
      levels[numGroups] := high;
      var logLow := ln(low);
      var logHigh := ln(high);
      var delta := (logHigh - logLow) / (numGroups + 1) as real;
      var ii := 1;
      while ii < numGroups
        invariant 1 <= ii && (numGroups > 0 ==> ii <= numGroups)
        invariant levels[numGroups] == high
        invariant numGroups > 0 ==> levels[0] == low
        invariant forall i :: 1 <= i < ii && i < numGroups ==> levels[i] == GridLevel(low, high, numGroups, ln, exp, i)
      {
        var arg := logLow + delta * ii as real;
        assert arg == ln(low) + (ln(high) - ln(low)) / (numGroups + 1) as real * ii as real;
        var level := exp(arg);
        assert level == GridLevel(low, high, numGroups, ln, exp, ii);
        levels[ii] := level;
        ii := ii + 1;
      }
      numEnergyGroups := numGroups;
      isotopes := [];
      energies := levels[..];
    }

    /** get_energy_groups: 0 at or below the first energy, the number of
        energies minus one above the last (the index past the last group,
        as in Quicksilver), and otherwise a group whose bounds bracket the
        energy, found by bisection. On a nondecreasing grid this is the
        group of EnergyGroup. */
    method GetEnergyGroups(energy: real) returns (r: nat)
      requires |energies| > 0
      ensures energy <= energies[0] ==> r == 0
      ensures energies[0] < energy && energy > energies[|energies| - 1] ==> r == |energies| - 1
      ensures energies[0] < energy <= energies[|energies| - 1] ==>
        r < |energies| - 1 && energies[r] <= energy && (energy < energies[r + 1] || r + 2 == |energies|)
      ensures Nondecreasing(energies) ==> r == EnergyGroup(energies, energy)
    {
      var numEnergies := |energies|;
      if energy <= energies[0] {
        return 0;
      }
      if energy > energies[numEnergies - 1] {
        return numEnergies - 1;
      }
      var high := numEnergies - 1;
      var low := 0;
      while high != low + 1
        invariant 0 <= low < high <= numEnergies - 1
        invariant energies[low] <= energy
        invariant energy < energies[high] || high == numEnergies - 1
        decreases high - low
      {
        var mid := (high + low) / 2;
        if energy < energies[mid] {
          high := mid;
        } else {
          low := mid;
        }
      }
      if Nondecreasing(energies) {
        BracketIsLinearGroup(energies, energy, low, 0);
      }
      return low;
    }

    /** add_isotope: appends one isotope holding one species whose reactions
        follow IsReactionList, and returns its index. The three cross
        sections the material names must be in the table (the lookup panics
        otherwise). */
    method AddIsotope(crossSection: map<string, Polynomial>, mp: MaterialParameters, nuBar: real)
      returns (index: nat)
      requires mp.fissionCrossSection in crossSection
      requires mp.scatteringCrossSection in crossSection
      requires mp.absorptionCrossSection in crossSection
      modifies this
      ensures index == |old(isotopes)| && |isotopes| == index + 1
      ensures isotopes[..index] == old(isotopes)
      ensures |isotopes[index]| == 1
      ensures IsReactionList(isotopes[index][0], mp, nuBar, crossSection[mp.scatteringCrossSection],
        crossSection[mp.fissionCrossSection], crossSection[mp.absorptionCrossSection])
      ensures energies == old(energies) && numEnergyGroups == old(numEnergyGroups)
    {
      var nReactions := mp.nReactions;
      var fissionFunction := crossSection[mp.fissionCrossSection];
      var scatterFunction := crossSection[mp.scatteringCrossSection];
      var absorptionFunction := crossSection[mp.absorptionCrossSection];
      var totalWeight := mp.fissionCrossSectionRatio + mp.scatteringCrossSectionRatio + mp.absorbtionCrossSectionRatio;
      var nFission := nReactions / 3;
      var nScatter := nReactions / 3;
      var nAbsorption := nReactions / 3;
      if nReactions % 3 == 2 {
        nFission := nFission + 1;
        nScatter := nScatter + 1;
      } else if nReactions % 3 == 1 {
        nScatter := nScatter + 1;
      }
      var fissionShare := Share(mp.totalCrossSection, mp.fissionCrossSectionRatio, nFission, totalWeight);
      var scatterShare := Share(mp.totalCrossSection, mp.scatteringCrossSectionRatio, nScatter, totalWeight);
      var absorptionShare := Share(mp.totalCrossSection, mp.absorbtionCrossSectionRatio, nAbsorption, totalWeight);
      var reactions: seq<Reaction> := [];
      for ii := 0 to nReactions
        invariant |reactions| == ii
        invariant forall j :: 0 <= j < ii ==>
          reactions[j].reactionType == ReactionTypeAt(j) && reactions[j].nuBar == nuBar &&
          reactions[j].polynomial == (match ReactionTypeAt(j)
            case Scatter => scatterFunction
            case Fission => fissionFunction
            case Absorption => absorptionFunction) &&
          reactions[j].reactionCrossSection == (match ReactionTypeAt(j)
            case Scatter => scatterShare
            case Fission => fissionShare
            case Absorption => absorptionShare)
      {
        if ii % 3 == 0 {
          reactions := reactions + [Reaction(Scatter, nuBar, scatterFunction, scatterShare)];
        } else if ii % 3 == 1 {
          reactions := reactions + [Reaction(Fission, nuBar, fissionFunction, fissionShare)];
        } else {
          reactions := reactions + [Reaction(Absorption, nuBar, absorptionFunction, absorptionShare)];
        }
      }
      isotopes := isotopes + [[reactions]];
      index := |isotopes| - 1;
    }
  }
}
